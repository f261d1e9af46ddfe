// The flat key space of the state store. The other modules use structured keys;
// this one shows when the rendered strings carry the same information.
module StateKeys {
  import opened Common

  datatype Key =
    | Status(instance: string)
    | WhitelistIndex(instance: string)
    | WhitelistConfig(instance: string)
    | WhitelistEntry(instance: string, uuid: string)
    | Provisioning(server: string)
    | ServerConfig(server: string)
    | ServerIndex
    | ConfigSnapshot(server: string)
    | PulumiSettings
    | BackupRecord(server: string, snapshot: string)
    | BackupServerIndex(server: string)
    | BackupGlobalIndex
    | BackupDeletedMarker(server: string)

  // strings.Cut at the first ':'.
  function Cut(s: string): (r: (string, string, bool)) {
    if s == "" then ("", "", false)
    else if s[0] == ':' then ("", s[1..], true)
    else var (a, b, found) := Cut(s[1..]); ([s[0]] + a, b, found)
  }

  function KeySuffix(key: string): string { Cut(key).1 }

  // The fixed leading parts.
  datatype Tag =
    | StatusTag | WhitelistIdxTag | WhitelistCfgTag | WhitelistTag | ProvisioningTag | ServerConfigTag
    | ServerIndexTag | ConfigSnapshotTag | PulumiSettingsTag
    | BackupTag | BackupIdxTag | BackupIndexTag | BackupDeletedTag

  function Word(t: Tag): string {
    match t
    case StatusTag => "status"
    case WhitelistIdxTag => "whitelistidx"
    case WhitelistCfgTag => "whitelistcfg"
    case WhitelistTag => "whitelist"
    case ProvisioningTag => "provisioning"
    case ServerConfigTag => "serverconfig"
    case ServerIndexTag => "serverindex"
    case ConfigSnapshotTag => "configsnapshot"
    case PulumiSettingsTag => "pulumisettings"
    case BackupTag => "backup"
    case BackupIdxTag => "backupidx"
    case BackupIndexTag => "backupindex"
    case BackupDeletedTag => "backupdeleted"
  }

  function ReadTag(s: string): Option<Tag> {
    if s == "status" then Some(StatusTag)
    else if s == "whitelistidx" then Some(WhitelistIdxTag)
    else if s == "whitelistcfg" then Some(WhitelistCfgTag)
    else if s == "whitelist" then Some(WhitelistTag)
    else if s == "provisioning" then Some(ProvisioningTag)
    else if s == "serverconfig" then Some(ServerConfigTag)
    else if s == "serverindex" then Some(ServerIndexTag)
    else if s == "configsnapshot" then Some(ConfigSnapshotTag)
    else if s == "pulumisettings" then Some(PulumiSettingsTag)
    else if s == "backup" then Some(BackupTag)
    else if s == "backupidx" then Some(BackupIdxTag)
    else if s == "backupindex" then Some(BackupIndexTag)
    else if s == "backupdeleted" then Some(BackupDeletedTag)
    else None
  }

  lemma WordsDistinct(t: Tag)
    ensures ReadTag(Word(t)) == Some(t) && ':' !in Word(t)
  {
    match t
    case StatusTag => assert Word(t) == "status";
    case WhitelistIdxTag => assert Word(t) == "whitelistidx";
    case WhitelistCfgTag => assert Word(t) == "whitelistcfg";
    case WhitelistTag => assert Word(t) == "whitelist";
    case ProvisioningTag => assert Word(t) == "provisioning";
    case ServerConfigTag => assert Word(t) == "serverconfig";
    case ServerIndexTag => assert Word(t) == "serverindex";
    case ConfigSnapshotTag => assert Word(t) == "configsnapshot";
    case PulumiSettingsTag => assert Word(t) == "pulumisettings";
    case BackupTag => assert Word(t) == "backup";
    case BackupIdxTag => assert Word(t) == "backupidx";
    case BackupIndexTag => assert Word(t) == "backupindex";
    case BackupDeletedTag => assert Word(t) == "backupdeleted";
  }

  function Owned(t: Tag, owner: string): string { Word(t) + ":" + owner }

  function Render(k: Key): string {
    match k
    case Status(i) => Owned(StatusTag, i)
    case WhitelistIndex(i) => Owned(WhitelistIdxTag, i)
    case WhitelistConfig(i) => Owned(WhitelistCfgTag, i)
    case WhitelistEntry(i, u) => Owned(WhitelistTag, i + ":" + u)
    case Provisioning(s) => Owned(ProvisioningTag, s)
    case ServerConfig(s) => Owned(ServerConfigTag, s)
    case ServerIndex => Word(ServerIndexTag)
    case ConfigSnapshot(s) => Owned(ConfigSnapshotTag, s)
    case PulumiSettings => Word(PulumiSettingsTag)
    case BackupRecord(s, n) => Owned(BackupTag, s + ":" + n)
    case BackupServerIndex(s) => Owned(BackupIdxTag, s)
    case BackupGlobalIndex => Word(BackupIndexTag)
    case BackupDeletedMarker(s) => Owned(BackupDeletedTag, s)
  }

  // The leading parts as they are written.
  lemma WordsAsWritten()
    ensures Word(StatusTag) == "status" && Word(WhitelistIdxTag) == "whitelistidx"
    ensures Word(WhitelistCfgTag) == "whitelistcfg" && Word(WhitelistTag) == "whitelist"
    ensures Word(ProvisioningTag) == "provisioning" && Word(ServerConfigTag) == "serverconfig"
    ensures Word(ServerIndexTag) == "serverindex" && Word(ConfigSnapshotTag) == "configsnapshot"
    ensures Word(PulumiSettingsTag) == "pulumisettings" && Word(BackupTag) == "backup"
    ensures Word(BackupIdxTag) == "backupidx" && Word(BackupIndexTag) == "backupindex"
    ensures Word(BackupDeletedTag) == "backupdeleted"
  {}

  function Parse(key: string): Option<Key> {
    var (word, rest, found) := Cut(key);
    var tag := ReadTag(word);
    if tag.None? then None else Decode(tag.value, rest, found)
  }

  function Decode(t: Tag, rest: string, found: bool): Option<Key> {
    var (owner, item, two) := Cut(rest);
    if !found then
      match t
      case ServerIndexTag => Some(ServerIndex)
      case PulumiSettingsTag => Some(PulumiSettings)
      case BackupIndexTag => Some(BackupGlobalIndex)
      case _ => None
    else
      match t
      case StatusTag => Some(Status(rest))
      case WhitelistIdxTag => Some(WhitelistIndex(rest))
      case WhitelistCfgTag => Some(WhitelistConfig(rest))
      case WhitelistTag => if two then Some(WhitelistEntry(owner, item)) else None
      case ProvisioningTag => Some(Provisioning(rest))
      case ServerConfigTag => Some(ServerConfig(rest))
      case ConfigSnapshotTag => Some(ConfigSnapshot(rest))
      case BackupTag => if two then Some(BackupRecord(owner, item)) else None
      case BackupIdxTag => Some(BackupServerIndex(rest))
      case BackupDeletedTag => Some(BackupDeletedMarker(rest))
      case _ => None
  }

  // The keys that carry a second part after the owner need an owner without ':'.
  predicate Plain(k: Key) {
    match k
    case WhitelistEntry(i, _) => ':' !in i
    case BackupRecord(s, _) => ':' !in s
    case _ => true
  }

  lemma {:induction false} CutJoin(a: string, b: string)
    ensures ':' !in a ==> Cut(a + ":" + b) == (a, b, true)
    ensures ':' in a ==> |Cut(a + ":" + b).0| < |a|
  {
    var s := a + ":" + b;
    if a == "" {
      assert s[0] == ':' && s[1..] == b;
    } else {
      assert s[0] == a[0] && s[1..] == a[1..] + ":" + b;
      assert a == [a[0]] + a[1..];
      if a[0] != ':' { CutJoin(a[1..], b); }
    }
  }

  lemma {:induction false} CutWhole(a: string)
    requires ':' !in a
    ensures Cut(a) == (a, "", false)
  {
    if a == "" {
    } else {
      assert a == [a[0]] + a[1..];
      CutWhole(a[1..]);
    }
  }

  // A rendered key can be read back exactly when its owner part holds no ':'
  // (where a second part follows).
  lemma {:induction false} RoundTripIffPlain(k: Key)
    ensures Parse(Render(k)) == Some(k) <==> Plain(k)
  {
    match k
    case WhitelistEntry(i, u) => RoundTripPair(k);
    case BackupRecord(s, n) => RoundTripPair(k);
    case ServerIndex => ParseBare(ServerIndexTag);
    case PulumiSettings => ParseBare(PulumiSettingsTag);
    case BackupGlobalIndex => ParseBare(BackupIndexTag);
    case _ => RoundTripOwned(k);
  }

  lemma {:induction false} RoundTripOwned(k: Key)
    requires !k.WhitelistEntry? && !k.BackupRecord? && !k.ServerIndex? && !k.PulumiSettings? && !k.BackupGlobalIndex?
    ensures Parse(Render(k)) == Some(k)
  {
    match k
    case Status(i) => ParseOwned(StatusTag, i);
    case WhitelistIndex(i) => ParseOwned(WhitelistIdxTag, i);
    case WhitelistConfig(i) => ParseOwned(WhitelistCfgTag, i);
    case Provisioning(s) => ParseOwned(ProvisioningTag, s);
    case ServerConfig(s) => ParseOwned(ServerConfigTag, s);
    case ConfigSnapshot(s) => ParseOwned(ConfigSnapshotTag, s);
    case BackupServerIndex(s) => ParseOwned(BackupIdxTag, s);
    case BackupDeletedMarker(s) => ParseOwned(BackupDeletedTag, s);
  }

  lemma {:induction false} RoundTripPair(k: Key)
    requires k.WhitelistEntry? || k.BackupRecord?
    ensures Parse(Render(k)) == Some(k) <==> Plain(k)
  {
    match k
    case WhitelistEntry(i, u) => ParseOwned(WhitelistTag, i + ":" + u); CutJoin(i, u);
    case BackupRecord(s, n) => ParseOwned(BackupTag, s + ":" + n); CutJoin(s, n);
  }

  lemma {:induction false} ParseOwned(t: Tag, owner: string)
    ensures Parse(Owned(t, owner)) == Decode(t, owner, true) && KeySuffix(Owned(t, owner)) == owner
  {
    WordsDistinct(t);
    CutJoin(Word(t), owner);
  }

  lemma {:induction false} ParseBare(t: Tag)
    ensures Parse(Word(t)) == Decode(t, "", false)
  {
    WordsDistinct(t);
    CutWhole(Word(t));
  }

  // Hence no two operations meet on a key they did not mean to share.
  lemma RenderInjective(a: Key, b: Key)
    requires Plain(a) && Plain(b) && Render(a) == Render(b)
    ensures a == b
  {
    RoundTripIffPlain(a);
    RoundTripIffPlain(b);
  }

  // The ids that the listings recover from their keys.
  lemma SuffixRecoversIds(server: string, snapshot: string)
    ensures KeySuffix(Render(ServerConfig(server))) == server
    ensures KeySuffix(Render(BackupRecord(server, snapshot))) == server + ":" + snapshot
    ensures KeySuffix(Render(WhitelistEntry(server, snapshot))) == server + ":" + snapshot
  {
    ParseOwned(WhitelistTag, server + ":" + snapshot);
    ParseOwned(ServerConfigTag, server);
    ParseOwned(BackupTag, server + ":" + snapshot);
  }

  // With ':' in a server id two different records share one key.
  lemma {:induction false} ColonCollides(a: string, b: string, c: string)
    ensures Render(BackupRecord(a + ":" + b, c)) == Render(BackupRecord(a, b + ":" + c))
  {}

  lemma {:induction false} CutRest(a: string, b: string)
    requires ':' in a
    ensures ':' in Cut(a + ":" + b).1
  {
    var s := a + ":" + b;
    assert s[0] == a[0] && s[1..] == a[1..] + ":" + b;
    assert a == [a[0]] + a[1..];
    if a[0] == ':' {
      assert s[1..][|a| - 1] == ':';
    } else {
      CutRest(a[1..], b);
    }
  }

  function Pair(t: Tag, owner: string, item: string): Key {
    if t == BackupTag then BackupRecord(owner, item) else WhitelistEntry(owner, item)
  }

  lemma {:induction false} AnotherPair(t: Tag, owner: string, item: string)
    requires t in {BackupTag, WhitelistTag} && (':' in owner || ':' in item)
    ensures exists j :: j != Pair(t, owner, item) && Render(j) == Render(Pair(t, owner, item))
  {
    var whole := owner + ":" + item;
    if ':' in owner {
      var i :| 0 <= i < |owner| && owner[i] == ':';
      var j := Pair(t, owner[..i], owner[i + 1..] + ":" + item);
      assert owner[..i] + ":" + (owner[i + 1..] + ":" + item) == whole;
      assert |owner[..i]| < |owner|;
      assert j != Pair(t, owner, item) && Render(j) == Render(Pair(t, owner, item));
    } else {
      var i :| 0 <= i < |item| && item[i] == ':';
      var j := Pair(t, owner + ":" + item[..i], item[i + 1..]);
      assert owner + ":" + item[..i] + ":" + item[i + 1..] == whole;
      assert |owner + ":" + item[..i]| > |owner|;
      assert j != Pair(t, owner, item) && Render(j) == Render(Pair(t, owner, item));
    }
  }

  // Neither part of a key with two parts holds ':'.
  predicate Undivided(k: Key) {
    match k
    case WhitelistEntry(i, u) => ':' !in i && ':' !in u
    case BackupRecord(s, n) => ':' !in s && ':' !in n
    case _ => true
  }

  // No other key at all is rendered like this one exactly if that is so.
  lemma {:induction false} UniqueIffUndivided(k: Key)
    ensures (forall j :: Render(j) == Render(k) ==> j == k) <==> Undivided(k)
  {
    if Undivided(k) {
      forall j | Render(j) == Render(k) ensures j == k { NoOtherKey(k, j); }
    } else {
      match k
      case WhitelistEntry(i, u) => AnotherPair(WhitelistTag, i, u);
      case BackupRecord(s, n) => AnotherPair(BackupTag, s, n);
    }
  }

  lemma {:induction false} NoOtherKey(k: Key, j: Key)
    requires Undivided(k) && Render(j) == Render(k)
    ensures j == k
  {
    RoundTripIffPlain(k);
    RoundTripIffPlain(j);
    match j
    case WhitelistEntry(i, u) =>
      ParseOwned(WhitelistTag, i + ":" + u);
      if ':' in i { CutRest(i, u); }
    case BackupRecord(s, n) =>
      ParseOwned(BackupTag, s + ":" + n);
      if ':' in s { CutRest(s, n); }
    case _ =>
  }
}
