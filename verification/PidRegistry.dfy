/** Which subscriptions hold which pid, and the controller each held pid is asked on. */
module PidRegistry {
  import opened Wrappers

  type Id = nat

  datatype Registry = Registry(holders: map<string, set<Id>>, controllers: map<string, string>) {

    predicate Holds(pid: string, id: Id) {
      pid in holders && id in holders[pid]
    }

    /** No pid without a holder, and no controller without a pid. */
    predicate Tidy() {
      (forall pid :: pid in holders ==> holders[pid] != {}) && controllers.Keys <= holders.Keys
    }

    function ControllerOf(pid: string): Option<string> {
      if pid in controllers then Some(controllers[pid]) else None
    }

    function Register(pid: string, id: Id, controller: Option<string>): (r: Registry)
      ensures forall q, i :: r.Holds(q, i) <==> Holds(q, i) || (q == pid && i == id)
      ensures Tidy() ==> r.Tidy()
    {
      var others := if pid in holders then holders[pid] else {};
      Registry(holders[pid := others + {id}],
               if controller.Some? then controllers[pid := controller.value] else controllers)
    }

    /** Drop `ids` as holders of `pid`; a pid nobody holds is forgotten. */
    function Unregister(pid: string, ids: set<Id>): (r: Registry)
      ensures Tidy() ==> r.Tidy()
      ensures forall q, i :: r.Holds(q, i) <==> Holds(q, i) && !(q == pid && i in ids)
    {
      if pid !in holders then this
      else if holders[pid] <= ids then Registry(holders - {pid}, controllers - {pid})
      else
        assert forall i :: i in holders[pid] && i !in ids ==> i in holders[pid] - ids;
        this.(holders := holders[pid := holders[pid] - ids])
    }

    function UnregisterAll(id: Id): (r: Registry)
      ensures Tidy() ==> r.Tidy()
      ensures forall q, i :: r.Holds(q, i) <==> Holds(q, i) && i != id
    {
      var left := map pid | pid in holders && holders[pid] - {id} != {} :: holders[pid] - {id};
      assert forall pid, i :: Holds(pid, i) && i != id ==> i in holders[pid] - {id};
      Registry(left, map pid | pid in controllers && pid in left :: controllers[pid])
    }

    /** `id` has left every pid but those in `todo`. */
    ghost predicate Leaving(now: Registry, id: Id, todo: set<string>) {
      && todo <= now.holders.Keys <= holders.Keys
      && (forall pid :: pid in todo ==> now.holders[pid] == holders[pid])
      && (forall pid :: pid in holders && pid !in todo ==>
                          if holders[pid] - {id} == {} then pid !in now.holders
                          else pid in now.holders && now.holders[pid] == holders[pid] - {id})
      && now.controllers.Keys <= now.holders.Keys && now.controllers.Keys <= controllers.Keys
      && (forall pid :: pid in now.holders && pid in controllers ==>
          pid in now.controllers && now.controllers[pid] == controllers[pid])
    }

    lemma LeaveOne(now: Registry, id: Id, todo: set<string>, pid: string)
      requires Leaving(now, id, todo) && pid in todo
      ensures
        pid in now.holders &&
        var left := now.holders[pid] - {id};
        Leaving(if left == {} then Registry(now.holders - {pid}, now.controllers - {pid})
                else now.(holders := now.holders[pid := left]), id, todo - {pid})
    {
    }

    lemma LeftAll(now: Registry, id: Id)
      requires Leaving(now, id, {})
      ensures now == UnregisterAll(id)
    {
      assert now.holders == UnregisterAll(id).holders;
      assert now.controllers == UnregisterAll(id).controllers;
    }
  }

  class GlobalPidRegistry {
    var pidSubscriptions: map<string, set<Id>>
    var pidControllers: map<string, string>

    function Now(): Registry
      reads this
    {
      Registry(pidSubscriptions, pidControllers)
    }

    constructor ()
      ensures Now() == Registry(map[], map[])
    {
      pidSubscriptions, pidControllers := map[], map[];
    }

    method RegisterPidSubscription(pid: string, id: Id, controller: Option<string>)
      modifies this
      ensures Now() == old(Now()).Register(pid, id, controller)
    {
      var others := if pid in pidSubscriptions then pidSubscriptions[pid] else {};
      pidSubscriptions := pidSubscriptions[pid := others + {id}];
      if controller.Some? {
        pidControllers := pidControllers[pid := controller.value];
      }
    }

    method UnregisterPidSubscription(pid: string, id: Id)
      requires Now().Tidy()
      modifies this
      ensures Now() == old(Now()).Unregister(pid, {id})
    {
      if pid in pidSubscriptions {
        var left := pidSubscriptions[pid] - {id};
        if left == {} {
          assert forall i :: i in pidSubscriptions[pid] && i != id ==> i in left;
          pidSubscriptions := pidSubscriptions - {pid};
          pidControllers := pidControllers - {pid};
        } else {
          assert !(pidSubscriptions[pid] <= {id}) by {
            var i :| i in left;
            assert i in pidSubscriptions[pid] && i !in {id};
          }
          pidSubscriptions := pidSubscriptions[pid := left];
        }
      }
    }

    method UnregisterSubscription(id: Id)
      requires Now().Tidy()
      modifies this
      ensures Now() == old(Now()).UnregisterAll(id)
    {
      ghost var was := Now();
      var todo := pidSubscriptions.Keys;
      while todo != {}
        invariant was.Leaving(Now(), id, todo)
        decreases |todo|
      {
        var pid :| pid in todo;
        was.LeaveOne(Now(), id, todo, pid);
        todo := todo - {pid};
        var left := pidSubscriptions[pid] - {id};
        if left == {} {
          pidSubscriptions := pidSubscriptions - {pid};
          pidControllers := pidControllers - {pid};
        } else {
          pidSubscriptions := pidSubscriptions[pid := left];
        }
      }
      was.LeftAll(Now(), id);
    }

    /** Every held pid once, with its controller. */
    method GetUniquePids() returns (pids: seq<(string, Option<string>)>)
      ensures forall i, j :: 0 <= i < j < |pids| ==> pids[i].0 != pids[j].0
      ensures forall i :: 0 <= i < |pids| ==>
              pids[i].0 in pidSubscriptions && pids[i].1 == Now().ControllerOf(pids[i].0)
      ensures forall pid :: pid in pidSubscriptions ==> exists i :: 0 <= i < |pids| && pids[i].0 == pid
    {
      pids := [];
      var todo := pidSubscriptions.Keys;
      while todo != {}
        invariant todo <= pidSubscriptions.Keys
        invariant forall i :: 0 <= i < |pids| ==>
                                pids[i].0 in pidSubscriptions.Keys - todo && pids[i].1 == Now().ControllerOf(pids[i].0)
        invariant forall i, j :: 0 <= i < j < |pids| ==> pids[i].0 != pids[j].0
        invariant forall pid :: pid in pidSubscriptions.Keys - todo ==> exists i :: 0 <= i < |pids| && pids[i].0 == pid
      {
        var pid :| pid in todo;
        ghost var before, done := pids, pidSubscriptions.Keys - todo;
        todo := todo - {pid};
        assert pidSubscriptions.Keys - todo == done + {pid};
        pids := pids + [(pid, if pid in pidControllers then Some(pidControllers[pid]) else None)];
        assert pids[|before|].0 == pid;
        forall q | q in pidSubscriptions.Keys - todo ensures exists i :: 0 <= i < |pids| && pids[i].0 == q {
          if q != pid {
            assert q in done;
            var i :| 0 <= i < |before| && before[i].0 == q;
            assert pids[i].0 == q;
          }
        }
      }
      assert forall pid :: pid in pidSubscriptions ==> pid in pidSubscriptions.Keys - todo;
    }
  }
}
