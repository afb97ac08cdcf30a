/** The controller's operations one at a time, as they touch registry, broker
    and store in turn (observe and markOffline in
    internal/controller/discovery.go, Rename in internal/controller/controller.go,
    the start-up of internal/controller/controller.go). */
module ControllerObject {
  import opened Text
  import opened Model
  import opened Presenter
  import opened Agreement
  import Mac
  import Publisher
  import R = Registry
  import St = Store
  import P = PresenterObject

  /** The whole of an operation at once. */
  ghost function Complete(s: Sys, op: Begin): Sys {
    if !Effective(s.reg, op) then s
    else
      Concluded(s.(reg := After(s.reg, op)), UpdateFor(s.reg, op))
  }

  /** What follows the registry step: publication and save in either order. */
  function Rest(u: Update, saveFirst: bool): seq<Label> {
    if !NeedsSave(u) then [Publish(0)] + [Finish(0)]
    else if saveFirst then [Persist(0)] + ([Publish(0)] + [Finish(0)])
    else [Publish(0)] + ([Persist(0)] + [Finish(0)])
  }

  ghost function Concluded(s: Sys, u: Update): Sys {
    Sys(s.reg, PublishUpdate(s.pub, s.reg, u), if NeedsSave(u) then StoreStep(s.rows, u) else s.rows, map[])
  }

  lemma RunCons(s: Sys, l: Label, rest: seq<Label>)
    requires Allowed(s, l) && AllowedRun(Next(s, l), rest)
    ensures AllowedRun(s, [l] + rest) && RunSys(s, [l] + rest) == RunSys(Next(s, l), rest)
  {
    assert ([l] + rest)[1..] == rest;
  }

  lemma RunOfTwo(s: Sys, a: Label, b: Label, s1: Sys)
    requires Allowed(s, a) && Next(s, a) == s1 && Allowed(s1, b)
    ensures AllowedRun(s, [a] + [b]) && RunSys(s, [a] + [b]) == Next(s1, b)
  {
    RunCons(s1, b, []);
    assert [b] + [] == [b];
    RunCons(s, a, [b]);
  }

  lemma RunOfThree(s: Sys, a: Label, b: Label, c: Label, s1: Sys, s2: Sys)
    requires Allowed(s, a) && Next(s, a) == s1 && Allowed(s1, b) && Next(s1, b) == s2 && Allowed(s2, c)
    ensures AllowedRun(s, [a] + ([b] + [c])) && RunSys(s, [a] + ([b] + [c])) == Next(s2, c)
  {
    RunOfTwo(s1, b, c, s2);
    RunCons(s, a, [b] + [c]);
  }

  lemma PublishNext(s: Sys, f: Flight)
    requires s.flights == map[0 := f] && f.unpublished
    ensures Allowed(s, Publish(0))
    ensures Next(s, Publish(0)) == Sys(s.reg, PublishUpdate(s.pub, s.reg, f.update), s.rows,
            map[0 := f.(unpublished := false)])
  {
    SoleFlight(f, f.(unpublished := false));
  }

  lemma SoleFlight(f: Flight, g: Flight)
    ensures map[0 := f][0 := g] == map[0 := g]
  {
  }

  lemma PersistNext(s: Sys, f: Flight)
    requires s.flights == map[0 := f] && f.unsaved
    ensures Allowed(s, Persist(0))
    ensures Next(s, Persist(0)) == Sys(s.reg, s.pub, StoreStep(s.rows, f.update), map[0 := f.(unsaved := false)])
  {
  }

  lemma FinishNext(s: Sys, u: Update)
    requires s.flights == map[0 := Flight(u, false, false)]
    ensures Allowed(s, Finish(0)) && Next(s, Finish(0)) == Sys(s.reg, s.pub, s.rows, map[])
  {
  }

  lemma RestRuns(s: Sys, u: Update, saveFirst: bool)
    requires s.flights == map[0 := Flight(u, true, NeedsSave(u))]
    ensures AllowedRun(s, Rest(u, saveFirst)) && RunSys(s, Rest(u, saveFirst)) == Concluded(s, u)
  {
    var f := Flight(u, true, NeedsSave(u));
    if !NeedsSave(u) {
      PublishNext(s, f);
      var s1 := Next(s, Publish(0));
      FinishNext(s1, u);
      RunOfTwo(s, Publish(0), Finish(0), s1);
    } else if saveFirst {
      SaveThenPublish(s, u);
    } else {
      PublishThenSave(s, u);
    }
  }

  lemma SaveThenPublish(s: Sys, u: Update)
    requires s.flights == map[0 := Flight(u, true, true)] && NeedsSave(u)
    ensures AllowedRun(s, Rest(u, true)) && RunSys(s, Rest(u, true)) == Concluded(s, u)
  {
    PersistNext(s, Flight(u, true, true));
    var s1 := Next(s, Persist(0));
    PublishNext(s1, Flight(u, true, false));
    var s2 := Next(s1, Publish(0));
    FinishNext(s2, u);
    RunOfThree(s, Persist(0), Publish(0), Finish(0), s1, s2);
  }

  lemma PublishThenSave(s: Sys, u: Update)
    requires s.flights == map[0 := Flight(u, true, true)] && NeedsSave(u)
    ensures AllowedRun(s, Rest(u, false)) && RunSys(s, Rest(u, false)) == Concluded(s, u)
  {
    PublishNext(s, Flight(u, true, true));
    var s1 := Next(s, Publish(0));
    PersistNext(s1, Flight(u, false, true));
    var s2 := Next(s1, Persist(0));
    FinishNext(s2, u);
    RunOfThree(s, Publish(0), Persist(0), Finish(0), s1, s2);
  }

  lemma QuietMayStart(s: Sys, op: Begin)
    requires TableSound(s) && s.flights == map[] && Effective(s.reg, op)
    ensures Allowed(s, Start(0, op))
  {
  }

  /** An undisturbed operation is one of the runs the agreement covers, and it
      does not matter which of publication and save comes first. */
  lemma CompleteIsARun(s: Sys, op: Begin, saveFirst: bool)
    requires TableSound(s) && s.flights == map[] && Effective(s.reg, op)
    ensures var run := [Start(0, op)] + Rest(UpdateFor(s.reg, op), saveFirst);
            AllowedRun(s, run) && RunSys(s, run) == Complete(s, op)
  {
    QuietMayStart(s, op);
    var u, s1 := UpdateFor(s.reg, op), Next(s, Start(0, op));
    RestRuns(s1, u, saveFirst);
    RunCons(s, Start(0, op), Rest(u, saveFirst));
  }

  /** So a completed operation leaves the views in agreement. */
  lemma CompleteKeepsInv(s: Sys, op: Begin)
    requires Inv(s) && s.flights == map[]
    ensures Inv(Complete(s, op)) && Complete(s, op).flights == map[]
  {
    if Effective(s.reg, op) {
      CompleteIsARun(s, op, false);
      RunKeepsInv(s, [Start(0, op)] + Rest(UpdateFor(s.reg, op), false));
    }
  }

  ghost function CompleteAll(s: Sys, ops: seq<Begin>): Sys
    decreases |ops|
  {
    if ops == [] then s else CompleteAll(Complete(s, ops[0]), ops[1..])
  }

  lemma {:induction false} CompleteAllKeepsInv(s: Sys, ops: seq<Begin>)
    requires Inv(s) && s.flights == map[]
    ensures Inv(CompleteAll(s, ops)) && CompleteAll(s, ops).flights == map[]
    decreases |ops|
  {
    if ops != [] {
      CompleteKeepsInv(s, ops[0]);
      CompleteAllKeepsInv(Complete(s, ops[0]), ops[1..]);
    }
  }

  /** After the first sweep the views agree at every boundary between operations
      completed one at a time. */
  lemma SerialViewsAgree(s: Sys, ops: seq<Begin>)
    requires Base(s) && s.flights == map[]
    ensures Agree(CompleteAll(Next(s, Sweep), ops))
  {
    SweepEstablishes(s);
    CompleteAllKeepsInv(Next(s, Sweep), ops);
    QuietAgrees(CompleteAll(Next(s, Sweep), ops));
  }

  /** One lifetime of the process per element: hydrate from the rows the last one
      left, sweep onto whatever the broker holds, then complete operations. */
  ghost function Lifetimes(rows: St.Rows, lives: seq<(Publisher.Broker, seq<Begin>)>): St.Rows
    decreases |lives|
  {
    if lives == [] then rows
    else
      var front := Lifetimes(rows, lives[..|lives| - 1]);
      var (broker, ops) := lives[|lives| - 1];
      CompleteAll(Next(Reborn(front, broker), Sweep), ops).rows
  }

  ghost function Reborn(rows: St.Rows, broker: Publisher.Broker): Sys {
    Sys(St.Restored(rows), Pub(broker, None, []), rows, map[])
  }

  lemma {:induction false} EveryLifetimeIsSound(lives: seq<(Publisher.Broker, seq<Begin>)>, broker: Publisher.Broker)
    ensures Base(Reborn(Lifetimes(map[], lives), broker))
    decreases |lives|
  {
    if lives != [] {
      var front := Lifetimes(map[], lives[..|lives| - 1]);
      var (b, ops) := lives[|lives| - 1];
      EveryLifetimeIsSound(lives[..|lives| - 1], b);
      var s := Reborn(front, b);
      SweepEstablishes(s);
      CompleteAllKeepsInv(Next(s, Sweep), ops);
      RestartIsSound(CompleteAll(Next(s, Sweep), ops), Pub(broker, None, []));
    }
  }

  /** From an empty store, over any number of restarts and any operations in each
      lifetime, the views agree at every operation boundary. */
  lemma AgreeAcrossRestarts(lives: seq<(Publisher.Broker, seq<Begin>)>, broker: Publisher.Broker, ops: seq<Begin>)
    ensures Agree(CompleteAll(Next(Reborn(Lifetimes(map[], lives), broker), Sweep), ops))
  {
    EveryLifetimeIsSound(lives, broker);
    SerialViewsAgree(Reborn(Lifetimes(map[], lives), broker), ops);
  }

  /** The operation a rename request comes to. */
  function RenameOp(mac: string, request: NameRequest): Begin {
    match request
    case Refuse => RefuseName(mac)
    case Clear => Rename(mac, None)
    case Use(name) => Rename(mac, Some(name))
  }

  lemma UnknownIsLeftAlone(s: Sys, mac: string, request: NameRequest)
    requires mac !in s.reg
    ensures Complete(s, RenameOp(mac, request)) == s
  {
  }

  class Controller {
    const registry: R.Registry
    const pub: P.MqttPublisher
    const store: St.SQLite

    ghost predicate Valid()
      reads this, registry, pub
    {
      registry.Valid() && pub.registry == registry
    }

    ghost function View(): Sys
      reads this, registry, pub, store
    {
      Sys(registry.adapters, pub.View(), store.rows, map[])
    }

    /** Start-up: the registry is hydrated from the store; the broker may hold
        anything, and the publisher has sent nothing yet. */
    constructor (store: St.SQLite, broker: Publisher.Broker)
      requires "" !in store.rows
      ensures Valid() && this.store == store && fresh(registry) && fresh(pub)
      ensures registry.adapters == St.Restored(store.rows)
      ensures pub.View() == Pub(broker, None, [])
    {
      var r := new R.Registry();
      var loaded := store.LoadAll();
      St.HydrateRestores(store.rows, loaded);
      r.Hydrate(loaded);
      var p := new P.MqttPublisher(r, broker);
      registry, pub, this.store := r, p, store;
    }

    method Observe(ip: string, info: DeviceInfo, now: int)
      requires Valid()
      modifies registry, pub, store
      ensures Valid() && View() == Complete(old(View()), Begin.Observe(ip, info, now))
    {
      var obs := registry.RecordObservation(ip, info, now);
      if obs == None {
        return;
      }
      pub.Observation(obs.value);
      if obs.value.Changed() {
        store.Save(obs.value.adapter);
      }
    }

    method MarkOffline(mac: string)
      requires Valid()
      modifies registry, pub, store
      ensures Valid() && View() == Complete(old(View()), GoOffline(mac))
    {
      var offline := registry.MarkOffline(mac);
      if offline == None {
        return;
      }
      pub.Offline(offline.value);
      store.Save(offline.value);
    }

    /** Rename: registry, then store, then publisher; a refused name only
        republishes the old one. */
    method Rename(raw: string, text: string) returns (renamed: bool)
      requires Valid()
      modifies registry, pub, store
      ensures Valid() && View() == Complete(old(View()), RenameOp(Mac.Normalize(raw), ValidateName(text)))
      ensures renamed <==> Mac.Normalize(raw) in old(registry.adapters) && !ValidateName(text).Refuse?
    {
      var mac, request := Mac.Normalize(raw), ValidateName(text);
      var found := registry.Lookup(mac);
      if found == None {
        UnknownIsLeftAlone(View(), mac, request);
        return false;
      }
      assert found.value.mac == mac;
      RenameKnown(mac, request);
      renamed := request != Refuse;
    }

    method RenameKnown(mac: string, request: NameRequest)
      requires Valid() && mac in registry.adapters
      modifies registry, pub, store
      ensures Valid() && View() == Complete(old(View()), RenameOp(mac, request))
    {
      match request
      case Refuse => RefuseRename(mac);
      case Clear => SetName(mac, None);
      case Use(name) => SetName(mac, Some(name));
    }

    method RefuseRename(mac: string)
      requires Valid() && mac in registry.adapters
      modifies pub
      ensures Valid() && View() == Complete(old(View()), RefuseName(mac))
    {
      pub.RejectedName(registry.adapters[mac]);
    }

    method SetName(mac: string, name: Option<string>)
      requires Valid() && mac in registry.adapters
      modifies registry, pub, store
      ensures Valid() && View() == Complete(old(View()), Begin.Rename(mac, name))
    {
      var updated := registry.SetName(mac, name);
      var _ := store.SetName(mac, name);
      pub.Renamed(updated.value);
    }

    /** onMQTTConnected, after the subscriptions: a full sweep. */
    method OnConnected()
      requires Valid()
      modifies pub
      ensures Valid() && View() == Next(old(View()), Sweep)
    {
      pub.Everything();
    }
  }
}
