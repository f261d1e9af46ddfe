// The names of the manifest files that the backup hook leaves for the agent.
module BackupManifest {
  // A time of day in UTC, to the second. Go writes a sign before a negative year and
  // as many digits as a late one needs.
  datatype Utc = Utc(year: int, month: nat, day: nat, hour: nat, minute: nat, second: nat) {
    predicate Valid() { 1 <= month <= 12 && 1 <= day <= 31 && hour < 24 && minute < 60 && second < 60 }
  }

  datatype Instant = Instant(second: Utc, nanos: nat)

  function Digit(d: nat): char
    requires d < 10
  {
    (d + '0' as int) as char
  }

  function Digits(n: nat): string { if n < 10 then [Digit(n)] else Digits(n / 10) + [Digit(n % 10)] }

  function PadTo(s: string, width: nat): string
    decreases width - |s|
  {
    if |s| < width then PadTo("0" + s, width) else s
  }

  function Text(n: nat, width: nat): string { PadTo(Digits(n), width) }

  function YearText(year: int): string { if year < 0 then "-" + Text(-year, 4) else Text(year, 4) }

  const HEAD := "manifest-"
  const TAIL := ".json"

  function Filename(t: Instant): string {
    var u := t.second;
    HEAD + YearText(u.year) + ClockText(u) + TAIL
  }

  function ClockText(u: Utc): string {
    Text(u.month, 2) + Text(u.day, 2) + "T" + Text(u.hour, 2) + Text(u.minute, 2) + Text(u.second, 2) + "Z"
  }

  // ---- Reading a number back ----

  predicate IsDigit(c: char) { '0' <= c <= '9' }

  function Weight(c: char): nat { if IsDigit(c) then c as int - '0' as int else 0 }

  function Value(s: string): nat {
    if s == "" then 0 else Value(s[..|s| - 1]) * 10 + Weight(s[|s| - 1])
  }

  lemma ValueAppend(s: string, c: char)
    ensures Value(s + [c]) == Value(s) * 10 + Weight(c)
  {
    assert (s + [c])[..|s|] == s;
  }

  lemma {:induction false} DigitsValue(n: nat)
    ensures Value(Digits(n)) == n && forall i | 0 <= i < |Digits(n)| :: IsDigit(Digits(n)[i])
  {
    if n < 10 {
      ValueAppend("", Digit(n));
      assert Digits(n) == "" + [Digit(n)];
    } else {
      DigitsValue(n / 10);
      ValueAppend(Digits(n / 10), Digit(n % 10));
    }
  }

  lemma {:induction false} LeadingZero(s: string)
    ensures Value("0" + s) == Value(s)
  {
    if s == "" {
      assert ("0" + s)[..0] == "";
    } else {
      LeadingZero(s[..|s| - 1]);
      assert ("0" + s)[..|s|] == "0" + s[..|s| - 1];
    }
  }

  lemma {:induction false} PadToValue(s: string, width: nat)
    requires forall i | 0 <= i < |s| :: IsDigit(s[i])
    ensures Value(PadTo(s, width)) == Value(s) && forall i | 0 <= i < |PadTo(s, width)| :: IsDigit(PadTo(s, width)[i])
    ensures |PadTo(s, width)| == if |s| < width then width else |s|
    decreases width - |s|
  {
    if |s| < width {
      LeadingZero(s);
      PadToValue("0" + s, width);
    }
  }

  lemma {:induction false} TextValue(n: nat, width: nat)
    ensures Value(Text(n, width)) == n && forall i | 0 <= i < |Text(n, width)| :: IsDigit(Text(n, width)[i])
    ensures Text(n, width) != "" && (n < 100 && width == 2 ==> |Text(n, width)| == 2)
  {
    DigitsValue(n);
    PadToValue(Digits(n), width);
    assert n < 100 ==> |Digits(n)| <= 2;
  }

  lemma {:induction false} YearsDiffer(a: int, b: int)
    ensures YearText(a) == YearText(b) <==> a == b
  {
    TextValue(if a < 0 then -a else a, 4);
    TextValue(if b < 0 then -b else b, 4);
    if YearText(a) == YearText(b) {
      assert YearText(a)[0] == YearText(b)[0];
      if a < 0 { assert YearText(a)[1..] == Text(-a, 4) && YearText(b)[1..] == Text(-b, 4); }
    }
  }

  lemma {:induction false} ClockParts(u: Utc)
    requires u.Valid()
    ensures ClockReads(ClockText(u), u)
  {
    TextValue(u.month, 2);
    TextValue(u.day, 2);
    TextValue(u.hour, 2);
    TextValue(u.minute, 2);
    TextValue(u.second, 2);
    var c := ClockText(u);
    assert c[0..2] == Text(u.month, 2) && c[2..4] == Text(u.day, 2) && c[5..7] == Text(u.hour, 2);
    assert c[7..9] == Text(u.minute, 2) && c[9..11] == Text(u.second, 2);
  }

  lemma {:induction false} NameParts(t: Instant)
    requires t.second.Valid()
    ensures var n := 9 + |YearText(t.second.year)|;
            && |Filename(t)| == n + 17 && Filename(t)[9..n] == YearText(t.second.year)
            && Filename(t)[n..n + 12] == ClockText(t.second)
  {
    ClockParts(t.second);
  }

  // The name is "manifest-", the year with at least four digits, then month, day, "T",
  // hour, minute and second with two digits each, and "Z.json".
  lemma {:induction false} NameReadsBack(t: Instant)
    requires t.second.Valid()
    ensures var u, name := t.second, Filename(t); var n := |name| - 17;
            && n >= 13 && name[..9] == "manifest-" && name[n + 12..] == ".json" && ClockReads(name[n..n + 12], u)
            && Value(name[9..n]) == (if u.year < 0 then -u.year else u.year) && (u.year < 0 <==> name[9] == '-')
  {
    NameParts(t);
    ClockParts(t.second);
    YearReadsBack(t.second.year);
    assert Filename(t)[|Filename(t)| - 5..] == TAIL;
  }

  ghost predicate ClockReads(c: string, u: Utc) {
    && |c| == 12 && c[4] == 'T' && c[11] == 'Z'
    && Value(c[0..2]) == u.month && Value(c[2..4]) == u.day && Value(c[5..7]) == u.hour
    && Value(c[7..9]) == u.minute && Value(c[9..11]) == u.second
  }

  lemma {:induction false} YearReadsBack(year: int)
    ensures |YearText(year)| >= 4 && Value(YearText(year)) == (if year < 0 then -year else year)
    ensures year < 0 <==> YearText(year)[0] == '-'
  {
    var n := if year < 0 then -year else year;
    TextValue(n, 4);
    DigitsValue(n);
    PadToValue(Digits(n), 4);
    if year < 0 { SignIgnored(Text(n, 4)); }
  }

  lemma {:induction false} SignIgnored(s: string)
    ensures Value("-" + s) == Value(s)
  {
    if s == "" {
      assert ("-" + s)[..0] == "";
    } else {
      SignIgnored(s[..|s| - 1]);
      assert ("-" + s)[..|s|] == "-" + s[..|s| - 1];
    }
  }

  // Two backups share a file name exactly if they fall into the same second.
  lemma {:induction false} SameNameIffSameSecond(t: Instant, u: Instant)
    requires t.second.Valid() && u.second.Valid()
    ensures Filename(t) == Filename(u) <==> t.second == u.second
  {
    NameParts(t);
    NameParts(u);
    YearsDiffer(t.second.year, u.second.year);
    if Filename(t) == Filename(u) {
      ClockParts(t.second);
      ClockParts(u.second);
    }
  }

  // ---- Which files a scan picks up ----

  // The pattern of a scan, manifest-*.json.
  predicate Matches(name: string) {
    HEAD <= name && |name| >= |HEAD| + |TAIL| && name[|name| - |TAIL|..] == TAIL
  }

  // Where a file goes that is set aside.
  datatype Aside = Invalid(name: string) | Rejected(name: string)

  function AsideName(a: Aside): string {
    match a
    case Invalid(name) => name + ".invalid"
    case Rejected(name) => name + ".rejected"
  }

  lemma Ends(head: string, tail: string)
    requires tail != ""
    ensures (head + tail)[|head + tail| - 1] == tail[|tail| - 1]
  {}

  lemma OtherEnding(name: string)
    requires name != "" && name[|name| - 1] != 'n'
    ensures !Matches(name)
  {
    if |name| >= |TAIL| { assert name[|name| - |TAIL|..][|TAIL| - 1] == name[|name| - 1]; }
  }

  lemma {:induction false} AsideNames(a: Aside, b: Aside)
    ensures !Matches(AsideName(a)) && (AsideName(a) == AsideName(b) <==> a == b)
  {
    AsideEnds(a);
    AsideEnds(b);
    OtherEnding(AsideName(a));
    if AsideName(a) == AsideName(b) {
      assert a.name == AsideName(a)[..|a.name|] && b.name == AsideName(b)[..|b.name|];
    }
  }

  // A scan finds every manifest and nothing set aside, nor what is still being
  // written; and no two files set aside share a name.
  lemma {:induction false} ScanFindsManifests(t: Instant, a: Aside, b: Aside)
    ensures Matches(Filename(t)) && !Matches(AsideName(a)) && !Matches(Filename(t) + ".tmp")
    ensures AsideName(a) == AsideName(b) <==> a == b
  {
    var name := Filename(t);
    assert name[..9] == HEAD && name[|name| - 5..] == TAIL;
    Ends(name, ".tmp");
    OtherEnding(name + ".tmp");
    AsideNames(a, b);
  }

  lemma AsideEnds(a: Aside)
    ensures var s := AsideName(a); s[|s| - 1] == 'd' && s[|s| - 2] == if a.Invalid? then 'i' else 'e'
  {}
}
