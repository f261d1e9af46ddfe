// The handler of provisioning tasks: it passes the gate and runs the stored
// operation. The kind of an update goes with a function that the Cloud Tasks executor
// drops, so that a delivery cannot know it.
module TaskHandler {
  import opened CloudTasks
  import V = Provisioning

  class Handler {
    const tasks: CloudTasksExecutor
    const service: V.ProvisioningService

    constructor (tasks: CloudTasksExecutor, service: V.ProvisioningService)
      ensures this.tasks == tasks && this.service == service
    {
      this.tasks, this.service := tasks, service;
    }

    // `status` is the stored status that the operation goes on with; a start stores
    // it without steps. Whatever kind of update was asked for, it is the one
    // performed exactly if it is the one in place.
    method Handle(server: string, id: string, operation: V.Operation, status: V.ProvisioningStatus,
                  deletedAt: int, until: int)
      returns (outcome: Outcome, ok: bool)
      modifies tasks, status, service.coord, service.coord.db, service.store, service.catalog
      ensures outcome != Executed ==> !ok && unchanged(status, service.coord.db, service.store, service.catalog)
      ensures outcome == Executed && id != "" ==> GateOpen(old(tasks.statuses), server, id)
      ensures outcome == Executed && operation != V.Unknown ==>
                status.state == (if ok then V.State.Completed else V.State.Failed)
      ensures outcome == Executed && operation == V.Update && old(status.steps) == [] ==>
                forall asked :: V.Performed(status.steps, V.KindOf(asked)) <==> V.KindOf(asked) == V.InPlace
      ensures ok && operation == V.Destroy && server in old(service.store.configs)
              && service.CleanSince(old(service.store.faults), old(service.catalog.faults),
                                    old(service.catalog.itemFaults)) ==>
                V.CleanDestroyEnd(old(service.store.configs), old(service.catalog.cat), server, deletedAt, until,
                  service.store.configs, service.catalog.cat)
    {
      var updateType;
      outcome, updateType := tasks.HandleProvisioningTask(server, id);
      ok := false;
      if outcome == Executed {
        ok := service.ExecuteOperation(status, server, operation, updateType, deletedAt, until);
      }
    }
  }
}
