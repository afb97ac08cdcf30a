/** Registry, broker and store as one transition system.

    An operation (an observation, a rename, a refused rename, a device going
    quiet) is a registry step followed, in whatever order and whenever, by its
    publication and by its save. Any number of operations may be in flight, and
    full sweeps and recounts may happen between any two steps. */
module Agreement {
  import opened Text
  import opened Model
  import opened Topics
  import opened Publisher
  import opened Presenter
  import Mac
  import R = Registry
  import S = Sources
  import St = Store

  /** An operation past its registry step. */
  datatype Flight = Flight(update: Update, unpublished: bool, unsaved: bool)

  datatype Sys = Sys(reg: R.Inventory, pub: Pub, rows: St.Rows, flights: map<nat, Flight>)

  datatype Begin =
    | Observe(ip: string, info: DeviceInfo, now: int)
    | Rename(mac: string, name: Option<string>)
    | RefuseName(mac: string)
    | GoOffline(mac: string)

  datatype Label =
    | Start(id: nat, op: Begin)
    | Publish(id: nat)
    | Persist(id: nat)
    | Finish(id: nat)
    | Sweep
    | Recount

  // ----- The registry step of an operation -----

  /** The operation reaches its registry step at all: the reply had a usable
      MAC, the adapter is known, the adapter was online. */
  predicate Effective(reg: R.Inventory, op: Begin) {
    match op
    case Observe(_, info, _) => Mac.Normalize(info.lanMac) != ""
    case Rename(m, _) => m in reg
    case RefuseName(m) => m in reg
    case GoOffline(m) => m in reg && reg[m].online
  }

  ghost function After(reg: R.Inventory, op: Begin): R.Inventory
    requires Effective(reg, op)
  {
    match op
    case Observe(ip, info, now) => R.Record(reg, ip, info, now).reg
    case Rename(m, name) => R.Named(reg, m, name)
    case RefuseName(m) => reg
    case GoOffline(m) => R.WentOffline(reg, m)
  }

  ghost function UpdateFor(reg: R.Inventory, op: Begin): Update
    requires Effective(reg, op)
  {
    match op
    case Observe(ip, info, now) => Seen(R.Record(reg, ip, info, now).obs)
    case Rename(m, name) => Renamed(R.Named(reg, m, name)[m])
    case RefuseName(m) => NameRefused(reg[m])
    case GoOffline(m) => Gone(R.WentOffline(reg, m)[m])
  }

  predicate NeedsSave(u: Update) {
    match u
    case Seen(obs) => obs.Changed()
    case NameRefused(_) => false
    case _ => true
  }

  /** The observed MAC and the displaced one. */
  function Footprint(u: Update): set<string> {
    {Subject(u).mac} + if u.Seen? && u.obs.displaced.Some? then {u.obs.displaced.value.mac} else {}
  }

  function StoreStep(rows: St.Rows, u: Update): St.Rows {
    match u
    case Renamed(a) => if a.mac in rows then St.NameStored(rows, a.mac, a.name).value else rows
    case NameRefused(_) => rows
    case _ => St.Saved(rows, Subject(u))
  }

  // ----- Bringing back the last table sent -----

  /** The operation changes the source table back to the one last sent, so that
      the guard of refreshSources will find nothing to do. */
  ghost predicate BringsBack(s: Sys, op: Begin)
    requires Effective(s.reg, op)
  {
    S.TableNow(After(s.reg, op)) != S.TableNow(s.reg) && S.TableNow(After(s.reg, op)) == s.pub.lastSources
  }

  /** The receiver topics that nobody in flight will send carry what they should
      once the operation has changed the registry. */
  ghost predicate ReceiversReady(s: Sys, op: Begin)
    requires Effective(s.reg, op)
  {
    forall t | TableTopic(After(s.reg, op), t) && !Owed(s, t) && !Owes(UpdateFor(s.reg, op), t) ::
      Holds(AimNow(After(s.reg, op)), s.pub.broker, t)
  }

  ghost predicate Harmless(s: Sys, op: Begin)
    requires Effective(s.reg, op)
  {
    BringsBack(s, op) ==> ReceiversReady(s, op)
  }

  predicate Owed(s: Sys, t: Topic) {
    exists i | i in s.flights :: s.flights[i].unpublished && Owes(s.flights[i].update, t)
  }

  // ----- Transitions -----

  /** The operation touches no adapter that one in flight touches. */
  ghost predicate Disjoint(s: Sys, op: Begin)
    requires Effective(s.reg, op)
  {
    forall i | i in s.flights :: Footprint(s.flights[i].update) !! Footprint(UpdateFor(s.reg, op))
  }

  ghost predicate Allowed(s: Sys, l: Label) {
    match l
    case Start(id, op) =>
      && id !in s.flights
      && Effective(s.reg, op)
      && Disjoint(s, op)
      && Harmless(s, op)
    case Publish(id) => id in s.flights && s.flights[id].unpublished
    case Persist(id) => id in s.flights && s.flights[id].unsaved
    case Finish(id) => id in s.flights && !s.flights[id].unpublished && !s.flights[id].unsaved
    case Sweep => true
    case Recount => true
  }

  ghost predicate Enabled(s: Sys, l: Label) {
    match l
    case Start(id, op) => id !in s.flights && Effective(s.reg, op)
    case Publish(id) => id in s.flights
    case Persist(id) => id in s.flights
    case _ => true
  }

  ghost function Next(s: Sys, l: Label): Sys
    requires Enabled(s, l)
  {
    match l
    case Start(id, op) =>
      var u := UpdateFor(s.reg, op);
      s.(reg := After(s.reg, op), flights := s.flights[id := Flight(u, true, NeedsSave(u))])
    case Publish(id) =>
      s.(pub := PublishUpdate(s.pub, s.reg, s.flights[id].update),
          flights := s.flights[id := s.flights[id].(unpublished := false)])
    case Persist(id) =>
      s.(rows := StoreStep(s.rows, s.flights[id].update), flights := s.flights[id := s.flights[id].(unsaved := false)])
    case Finish(id) => s.(flights := s.flights - {id})
    case Sweep => s.(pub := Swept(s.pub, s.reg))
    case Recount => s.(pub := CountsStep(s.pub, s.reg))
  }

  // ----- The invariant -----

  ghost predicate FlightsSound(s: Sys) {
    && (forall i | i in s.flights :: UpToDate(s.reg, s.flights[i].update))
    && (forall i | i in s.flights && s.flights[i].unsaved :: NeedsSave(s.flights[i].update))
    && (forall i, j | i in s.flights && j in s.flights && i != j ::
         Footprint(s.flights[i].update) !! Footprint(s.flights[j].update))
  }

  predicate HardwareAgrees(a: Adapter, row: St.Row) {
    row.(name := None, lastSeenAt := None) == St.RowOf(a).(name := None, lastSeenAt := None)
  }

  /** An operation in flight will still write m's hardware columns, or its name. */
  predicate OwesRow(s: Sys, m: string) {
    exists i | i in s.flights ::
      s.flights[i].unsaved && !s.flights[i].update.Renamed? && Subject(s.flights[i].update).mac == m
  }

  predicate OwesName(s: Sys, m: string) {
    exists i | i in s.flights ::
      s.flights[i].unsaved && s.flights[i].update.Renamed? && Subject(s.flights[i].update).mac == m
  }

  ghost predicate StoreSound(s: Sys) {
    && (forall m | m in s.rows :: m in s.reg && (!OwesName(s, m) ==> s.rows[m].name == s.reg[m].name))
    && (forall m | m in s.reg && !OwesRow(s, m) :: m in s.rows && HardwareAgrees(s.reg[m], s.rows[m]))
    && (forall m | m in s.reg && m !in s.rows :: s.reg[m].name == None)
  }

  ghost function Target(s: Sys): Aim
    requires s.pub.lastCounts.Some?
  {
    Aim(s.reg, S.TableNow(s.reg), s.pub.lastCounts.value)
  }

  ghost predicate CountsSound(s: Sys) {
    && s.pub.lastCounts.Some?
    && (s.pub.lastCounts == Some(R.CountsOf(s.reg)) ||
        exists i | i in s.flights :: s.flights[i].unpublished && SendsCounts(s.flights[i].update))
  }

  ghost predicate TableSound(s: Sys) {
    || s.pub.lastSources == S.TableNow(s.reg)
    || exists i | i in s.flights :: s.flights[i].unpublished && RefreshesSources(s.flights[i].update)
  }

  /** t is a receiver's topic and the table changed since sources were last sent. */
  ghost predicate Outdated(s: Sys, t: Topic) {
    TableTopic(s.reg, t) && s.pub.lastSources != S.TableNow(s.reg)
  }

  ghost predicate BrokerSound(s: Sys) {
    && CountsSound(s)
    && TableSound(s)
    && (forall t :: !Owed(s, t) && !Outdated(s, t) ==> Holds(Target(s), s.pub.broker, t))
  }

  ghost predicate Base(s: Sys) {
    R.WellKeyed(s.reg) && R.UniqueOnline(s.reg) && FlightsSound(s) && StoreSound(s)
  }

  ghost predicate Inv(s: Sys) {
    Base(s) && BrokerSound(s)
  }

  // ----- What the registry step of an operation leaves alone -----

  lemma WantIgnoresTable(a: Adapter, x: S.Table, y: S.Table, slot: Slot)
    requires !(a.role == Receiver && slot in SOURCE_SLOTS)
    ensures Want(a, x, slot) == Want(a, y, slot)
  {
  }

  /** Slots an update does not undertake to publish want what they wanted. */
  predicate SlotKept(reg: R.Inventory, reg': R.Inventory, m: string, table: S.Table, slot: Slot)
    requires m in reg'
  {
    && Want(reg'[m], table, slot) == (if m in reg then Want(reg[m], table, slot) else None)
    && (slot in SOURCE_SLOTS ==> m in reg && (reg'[m].role == Receiver <==> reg[m].role == Receiver))
  }

  /** Each slot depends on a few fields only. */
  lemma WantCongruent(a: Adapter, b: Adapter, table: S.Table, slot: Slot)
    requires slot.Config? || slot == NameState ==>
      a.(ip := b.ip, channel := b.channel, online := b.online, firstSeenAt := b.firstSeenAt,
          lastSeenAt := b.lastSeenAt) == b
    requires slot == Availability ==> a.online == b.online
    requires slot in STATE_SLOTS ==> a.role == b.role && a.ip == b.ip && a.channel == b.channel
    ensures Want(a, table, slot) == Want(b, table, slot)
  {
  }

  lemma NothingElseWanted(a: Adapter, table: S.Table, slot: Slot)
    requires slot !in CONFIG_SLOTS && slot !in STATE_SLOTS && slot != Availability && slot != NameState
    ensures Want(a, table, slot) == None
  {
    if Want(a, table, slot).Some? {
      WantedSlots(a, table, slot);
    }
  }

  lemma SeenFlagsCover(reg: R.Inventory, ip: string, info: DeviceInfo, now: int, table: S.Table, slot: Slot)
    requires R.WellKeyed(reg) && R.Record(reg, ip, info, now).Recorded?
    ensures var Recorded(reg', obs) := R.Record(reg, ip, info, now);
            var m := obs.adapter.mac;
            m in reg' && (slot !in OwedSlots(Seen(obs), m) ==> SlotKept(reg, reg', m, table, slot))
  {
    var Recorded(reg', obs) := R.Record(reg, ip, info, now);
    var m := obs.adapter.mac;
    if slot !in OwedSlots(Seen(obs), m) {
      if slot !in CONFIG_SLOTS && slot !in STATE_SLOTS && slot != Availability && slot != NameState {
        NothingElseWanted(reg'[m], table, slot);
        if m in reg {
          NothingElseWanted(reg[m], table, slot);
        }
      } else {
        assert m in reg;
        SeenFieldsKept(reg, ip, info, now, slot);
        WantCongruent(reg[m], reg'[m], table, slot);
      }
    }
  }

  lemma SeenFieldsKept(reg: R.Inventory, ip: string, info: DeviceInfo, now: int, slot: Slot)
    requires R.WellKeyed(reg) && R.Record(reg, ip, info, now).Recorded?
    requires R.Record(reg, ip, info, now).obs.adapter.mac in reg
    requires slot !in OwedSlots(Seen(R.Record(reg, ip, info, now).obs), R.Record(reg, ip, info, now).obs.adapter.mac)
    requires slot in CONFIG_SLOTS || slot in STATE_SLOTS || slot == Availability || slot == NameState
    ensures var Recorded(reg', obs) := R.Record(reg, ip, info, now);
            var a, b := reg[obs.adapter.mac], reg'[obs.adapter.mac];
            && (slot.Config? || slot == NameState ==>
                  a.(ip := b.ip, channel := b.channel, online := b.online, firstSeenAt := b.firstSeenAt,
                      lastSeenAt := b.lastSeenAt) == b)
            && (slot == Availability ==> a.online == b.online)
            && (slot in STATE_SLOTS ==> a.role == b.role && a.ip == b.ip && a.channel == b.channel)
  {
    var Recorded(reg', obs) := R.Record(reg, ip, info, now);
    assert slot.Config? || slot == NameState ==> !obs.metadataChanged;
    assert slot == Availability ==> !obs.cameOnline;
    assert slot in STATE_SLOTS ==> !obs.stateChanged && !obs.roleChanged;
  }

  lemma RecordIsLocal(reg: R.Inventory, ip: string, info: DeviceInfo, now: int)
    requires R.WellKeyed(reg) && R.UniqueOnline(reg) && R.Record(reg, ip, info, now).Recorded?
    ensures var Recorded(reg', obs) := R.Record(reg, ip, info, now);
            && R.WellKeyed(reg') && R.UniqueOnline(reg')
            && reg'.Keys == reg.Keys + {obs.adapter.mac} && reg'[obs.adapter.mac] == obs.adapter
            && (forall m | m in reg && m !in Footprint(Seen(obs)) :: reg'[m] == reg[m])
            && (obs.displaced.Some? ==>
                  var d := obs.displaced.value.mac;
                  d in reg && d != obs.adapter.mac && reg'[d] == reg[d].(online := false) &&
                      obs.displaced.value == reg'[d])
  {
    var mac := Mac.Normalize(info.lanMac);
    var Recorded(reg', obs) := R.Record(reg, ip, info, now);
    R.RecordKeepsShape(reg, ip, info, now);
    R.OccupantIsDisplaced(reg, mac, ip);
    var others := R.Occupants(reg, mac, ip);
    if o :| o in others {
      assert others == {o} && obs.displaced == Some(reg[o].(online := false));
    }
    forall m | m in reg && m !in Footprint(Seen(obs)) ensures reg'[m] == reg[m] {
      assert R.Occupies(reg, m, mac, ip) ==> m in others;
    }
  }

  /** Only the footprint of an operation moves. */
  lemma StartIsLocal(reg: R.Inventory, op: Begin)
    requires R.WellKeyed(reg) && R.UniqueOnline(reg) && Effective(reg, op)
    ensures var reg', u := After(reg, op), UpdateFor(reg, op);
            && R.WellKeyed(reg') && R.UniqueOnline(reg') && UpToDate(reg', u)
            && reg'.Keys == reg.Keys + {Subject(u).mac}
            && (forall m | m in reg && m !in Footprint(u) :: reg'[m] == reg[m])
            && (u.Seen? && u.obs.displaced.Some? ==>
                  var d := u.obs.displaced.value.mac;
                  d in reg && d != Subject(u).mac && reg'[d] == reg[d].(online := false))
  {
    match op
    case Observe(ip, info, now) => RecordIsLocal(reg, ip, info, now);
    case _ =>
  }

  lemma StartKeepsSlots(reg: R.Inventory, op: Begin, m: string, table: S.Table, slot: Slot)
    requires R.WellKeyed(reg) && R.UniqueOnline(reg) && Effective(reg, op) && m in After(reg, op)
    requires slot !in OwedSlots(UpdateFor(reg, op), m)
    ensures SlotKept(reg, After(reg, op), m, table, slot)
  {
    StartIsLocal(reg, op);
    var reg', u := After(reg, op), UpdateFor(reg, op);
    if m !in Footprint(u) {
      assert reg'[m] == reg[m];
    } else if m != Subject(u).mac {
      WantCongruent(reg[m], reg'[m], table, slot);
    } else {
      match op
      case Observe(ip, info, now) => SeenFlagsCover(reg, ip, info, now, table, slot);
      case Rename(_, _) => RenamedSlotKept(reg[m], reg'[m], table, slot);
      case RefuseName(_) =>
      case GoOffline(_) => WantCongruent(reg[m], reg'[m], table, slot);
    }
  }

  lemma RenamedSlotKept(a: Adapter, b: Adapter, table: S.Table, slot: Slot)
    requires b == a.(name := b.name) && slot !in CONFIG_SLOTS && slot != NameState
    ensures Want(a, table, slot) == Want(b, table, slot)
  {
    if slot.Config? {
      NothingElseWanted(a, table, slot);
      NothingElseWanted(b, table, slot);
    } else {
      WantCongruent(a, b, table, slot);
    }
  }

  /** On a topic the operation does not owe, the goal is what it was, unless the
      topic follows the source table and the table changed. */
  lemma GoalKept(reg: R.Inventory, op: Begin, x: S.Table, y: S.Table, c: R.Tally, t: Topic)
    requires R.WellKeyed(reg) && R.UniqueOnline(reg) && Effective(reg, op)
    requires !Owes(UpdateFor(reg, op), t)
    ensures TableTopic(After(reg, op), t) ==> TableTopic(reg, t)
    ensures x == y || !TableTopic(After(reg, op), t) ==> Goal(Aim(After(reg, op), y, c), t) == Goal(Aim(reg, x, c), t)
  {
    StartIsLocal(reg, op);
    var reg' := After(reg, op);
    if t.Device? && t.mac in reg' {
      StartKeepsSlots(reg, op, t.mac, x, t.slot);
      if !TableTopic(reg', t) {
        WantIgnoresTable(reg'[t.mac], x, y, t.slot);
      }
    }
  }

  lemma StartMovesCounts(reg: R.Inventory, op: Begin)
    requires R.WellKeyed(reg) && R.UniqueOnline(reg) && Effective(reg, op)
    ensures !SendsCounts(UpdateFor(reg, op)) ==> R.CountsOf(After(reg, op)) == R.CountsOf(reg)
  {
    var reg', u := After(reg, op), UpdateFor(reg, op);
    match op
    case Observe(ip, info, now) =>
      R.CountsFollowFlags(reg, ip, info, now);
      assert u.obs.created ==> u.obs.cameOnline;
    case Rename(m, name) => NamedCounts(reg, m, name);
    case _ =>
  }

  lemma NamedCounts(reg: R.Inventory, m: string, name: Option<string>)
    ensures R.CountsOf(R.Named(reg, m, name)) == R.CountsOf(reg)
  {
    var reg' := R.Named(reg, m, name);
    assert reg'.Keys == reg.Keys && R.OnlineSet(reg') == R.OnlineSet(reg);
    assert |reg'| == |reg'.Keys| && |reg| == |reg.Keys|;
  }

  lemma StartMovesTable(reg: R.Inventory, op: Begin)
    requires R.WellKeyed(reg) && R.UniqueOnline(reg) && Effective(reg, op)
    ensures !RefreshesSources(UpdateFor(reg, op)) ==> S.TableNow(After(reg, op)) == S.TableNow(reg)
  {
    var reg', u := After(reg, op), UpdateFor(reg, op);
    if !RefreshesSources(u) {
      forall m | m in reg'
        ensures S.Listed(reg'[m]) == (m in reg && S.Listed(reg[m]))
        ensures S.Listed(reg'[m]) ==> reg'[m].(online := reg[m].online) == reg[m]
      {
        StartKeepsListing(reg, op, m);
      }
      StartIsLocal(reg, op);
      CatalogueKept(reg, reg');
    }
  }

  lemma CatalogueKept(reg: R.Inventory, reg': R.Inventory)
    requires forall m | m in reg :: m in reg'
    requires forall m | m in reg' :: S.Listed(reg'[m]) == (m in reg && S.Listed(reg[m]))
    requires forall m | m in reg' && m in reg && S.Listed(reg'[m]) :: reg'[m].(online := reg[m].online) == reg[m]
    ensures S.CatalogueOf(reg') == S.CatalogueOf(reg)
  {
    var x, y := S.CatalogueOf(reg), S.CatalogueOf(reg');
    assert x.Keys == y.Keys;
    forall m | m in x ensures x[m] == y[m] {
      assert DisplayName(reg[m]) == DisplayName(reg'[m]);
    }
  }

  lemma StartKeepsListing(reg: R.Inventory, op: Begin, m: string)
    requires R.WellKeyed(reg) && R.UniqueOnline(reg) && Effective(reg, op) && m in After(reg, op)
    requires !RefreshesSources(UpdateFor(reg, op))
    ensures var reg' := After(reg, op);
            && S.Listed(reg'[m]) == (m in reg && S.Listed(reg[m]))
            && (S.Listed(reg'[m]) ==> reg'[m].(online := reg[m].online) == reg[m])
  {
    StartIsLocal(reg, op);
    var reg', u := After(reg, op), UpdateFor(reg, op);
    if m !in Footprint(u) {
      assert m in reg && reg'[m] == reg[m];
    } else if m == Subject(u).mac {
      assert !op.RefuseName? && !op.GoOffline? ==> reg'[m].role != Transmitter;
      assert op.Observe? && m in reg ==> reg[m].role == reg'[m].role;
    }
  }

  /** What the store needs to know about an operation's registry step. */
  lemma StartKeepsColumns(reg: R.Inventory, op: Begin, m: string)
    requires R.WellKeyed(reg) && R.UniqueOnline(reg) && Effective(reg, op) && m in After(reg, op)
    ensures var reg', u := After(reg, op), UpdateFor(reg, op);
            && (m !in reg ==> NeedsSave(u) && !u.Renamed? && Subject(u).mac == m && reg'[m].name == None)
            && (m in reg && !(u.Renamed? && Subject(u).mac == m) ==> reg'[m].name == reg[m].name)
            && (m in reg && !(NeedsSave(u) && !u.Renamed? && Subject(u).mac == m) ==> SameColumns(reg[m], reg'[m]))
  {
    StartIsLocal(reg, op);
    if m !in Footprint(UpdateFor(reg, op)) {
      assert m in reg && After(reg, op)[m] == reg[m];
    } else if op.Observe? {
      SeenKeepsColumns(reg, op.ip, op.info, op.now);
    }
  }

  /** Everything Save writes but the name and the time of last contact. */
  predicate SameColumns(a: Adapter, b: Adapter) {
    a.(name := b.name, online := b.online, lastSeenAt := b.lastSeenAt) == b
  }

  lemma SeenKeepsColumns(reg: R.Inventory, ip: string, info: DeviceInfo, now: int)
    requires R.WellKeyed(reg) && R.UniqueOnline(reg) && R.Record(reg, ip, info, now).Recorded?
    ensures var Recorded(reg', obs) := R.Record(reg, ip, info, now);
            var m := obs.adapter.mac;
            && (m !in reg ==> obs.Changed() && reg'[m].name == None)
            && (m in reg ==> reg'[m].name == reg[m].name && (!obs.Changed() ==> SameColumns(reg[m], reg'[m])))
  {
  }

  lemma SameColumnsAgree(a: Adapter, b: Adapter, row: St.Row)
    requires SameColumns(a, b) && HardwareAgrees(a, row)
    ensures HardwareAgrees(b, row)
  {
  }

  // ----- Every transition keeps the invariant -----

  /** Snapshots in flight stay up to date, as the new operation touches none. */
  lemma StartKeepsUpdates(s: Sys, id: nat, op: Begin)
    requires R.WellKeyed(s.reg) && R.UniqueOnline(s.reg) && FlightsSound(s) && Enabled(s, Start(id, op)) &&
             Disjoint(s, op)
    ensures var s' := Next(s, Start(id, op)); forall i | i in s'.flights :: UpToDate(s'.reg, s'.flights[i].update)
  {
    StartIsLocal(s.reg, op);
    var s', u := Next(s, Start(id, op)), UpdateFor(s.reg, op);
    forall i | i in s'.flights ensures UpToDate(s'.reg, s'.flights[i].update) {
      if i != id {
        var v := s.flights[i].update;
        assert UpToDate(s.reg, v) && Footprint(v) !! Footprint(u);
        assert Subject(v).mac in Footprint(v);
        if v.Seen? && v.obs.displaced.Some? {
          assert v.obs.displaced.value.mac in Footprint(v);
        }
      }
    }
  }

  lemma StartKeepsFlights(s: Sys, id: nat, op: Begin)
    requires R.WellKeyed(s.reg) && R.UniqueOnline(s.reg) && FlightsSound(s) && Enabled(s, Start(id, op)) &&
             Disjoint(s, op)
    ensures FlightsSound(Next(s, Start(id, op)))
  {
    StartKeepsUpdates(s, id, op);
  }

  /** Disjoint footprints have distinct subjects. */
  lemma DistinctSubjects(u: Update, v: Update)
    requires Footprint(u) !! Footprint(v)
    ensures Subject(u).mac != Subject(v).mac
  {
    assert Subject(u).mac in Footprint(u) && Subject(v).mac in Footprint(v);
  }

  /** The operations in flight after a start are those before and the new one. */
  lemma StartedFlights(s: Sys, id: nat, op: Begin, m: string)
    requires Enabled(s, Start(id, op))
    ensures var s', u := Next(s, Start(id, op)), UpdateFor(s.reg, op);
            && (OwesName(s', m) <==> OwesName(s, m) || (NeedsSave(u) && u.Renamed? && Subject(u).mac == m))
            && (OwesRow(s', m) <==> OwesRow(s, m) || (NeedsSave(u) && !u.Renamed? && Subject(u).mac == m))
  {
    var s', u := Next(s, Start(id, op)), UpdateFor(s.reg, op);
    assert s'.flights[id] == Flight(u, true, NeedsSave(u));
    assert forall i | i in s.flights :: i in s'.flights && s'.flights[i] == s.flights[i];
  }

  lemma SubjectOwesNothing(s: Sys, op: Begin)
    requires Effective(s.reg, op) && Disjoint(s, op)
    ensures var m := Subject(UpdateFor(s.reg, op)).mac; !OwesRow(s, m) && !OwesName(s, m)
  {
    var u := UpdateFor(s.reg, op);
    forall i | i in s.flights ensures Subject(s.flights[i].update).mac != Subject(u).mac {
      DistinctSubjects(s.flights[i].update, u);
    }
  }

  lemma StartKeepsStore(s: Sys, id: nat, op: Begin)
    requires Base(s) && Allowed(s, Start(id, op))
    ensures StoreSound(Next(s, Start(id, op)))
  {
    var s' := Next(s, Start(id, op));
    StartIsLocal(s.reg, op);
    forall m | m in s'.reg
      ensures m in s.rows && !OwesName(s', m) ==> s.rows[m].name == s'.reg[m].name
      ensures !OwesRow(s', m) ==> m in s.rows && HardwareAgrees(s'.reg[m], s.rows[m])
      ensures m !in s.rows ==> s'.reg[m].name == None
    {
      StartKeepsColumns(s.reg, op, m);
      StartedFlights(s, id, op, m);
      SubjectOwesNothing(s, op);
      if m in s.rows && m in s.reg && !OwesRow(s', m) {
        SameColumnsAgree(s.reg[m], s'.reg[m], s.rows[m]);
      }
    }
  }

  lemma StartedTopics(s: Sys, id: nat, op: Begin, t: Topic)
    requires Enabled(s, Start(id, op))
    ensures Owed(Next(s, Start(id, op)), t) <==> Owed(s, t) || Owes(UpdateFor(s.reg, op), t)
  {
    var s', u := Next(s, Start(id, op)), UpdateFor(s.reg, op);
    assert s'.flights[id] == Flight(u, true, NeedsSave(u));
    assert forall i | i in s.flights :: i in s'.flights && s'.flights[i] == s.flights[i];
  }

  lemma StartKeepsCounts(s: Sys, id: nat, op: Begin)
    requires R.WellKeyed(s.reg) && R.UniqueOnline(s.reg) && CountsSound(s) && Enabled(s, Start(id, op))
    ensures CountsSound(Next(s, Start(id, op)))
  {
    var s', u := Next(s, Start(id, op)), UpdateFor(s.reg, op);
    assert s'.flights[id] == Flight(u, true, NeedsSave(u));
    StartMovesCounts(s.reg, op);
    if s.pub.lastCounts != Some(R.CountsOf(s.reg)) {
      var i :| i in s.flights && s.flights[i].unpublished && SendsCounts(s.flights[i].update);
      assert s'.flights[i] == s.flights[i];
    }
  }

  lemma StartKeepsTable(s: Sys, id: nat, op: Begin)
    requires R.WellKeyed(s.reg) && R.UniqueOnline(s.reg) && TableSound(s) && Enabled(s, Start(id, op))
    ensures TableSound(Next(s, Start(id, op)))
  {
    var s', u := Next(s, Start(id, op)), UpdateFor(s.reg, op);
    StartMovesTable(s.reg, op);
    if s.pub.lastSources != S.TableNow(s.reg) {
      var i :| i in s.flights && s.flights[i].unpublished && RefreshesSources(s.flights[i].update);
      assert s'.flights[i] == s.flights[i];
    } else if RefreshesSources(u) {
      assert s'.flights[id] == Flight(u, true, NeedsSave(u));
    }
  }

  lemma StartKeepsTopic(s: Sys, id: nat, op: Begin, t: Topic)
    requires R.WellKeyed(s.reg) && R.UniqueOnline(s.reg) && BrokerSound(s) && Enabled(s, Start(id, op))
    requires BringsBack(s, op) ==> !TableTopic(After(s.reg, op), t)
    ensures var s' := Next(s, Start(id, op));
            !Owed(s', t) && !Outdated(s', t) ==> Holds(Target(s'), s'.pub.broker, t)
  {
    var s' := Next(s, Start(id, op));
    StartedTopics(s, id, op, t);
    if !Owed(s', t) && !Outdated(s', t) {
      GoalKept(s.reg, op, S.TableNow(s.reg), S.TableNow(s'.reg), s.pub.lastCounts.value, t);
      SoundTopic(s, t);
      HoldsCongruent(Target(s), Target(s'), s.pub.broker, t);
    }
  }

  /** A topic that follows the table does not look at the counters. */
  lemma TableTopicHolds(s: Sys, t: Topic)
    requires s.pub.lastCounts.Some? && TableTopic(s.reg, t)
    ensures Holds(Target(s), s.pub.broker, t) <==> Holds(AimNow(s.reg), s.pub.broker, t)
  {
    GoalIgnoresCounts(s.reg, S.TableNow(s.reg), s.pub.lastCounts.value, R.CountsOf(s.reg), t);
  }

  /** When the old table comes back, a receiver topic is right exactly if it is
      owed or already carries the new goal. */
  lemma BroughtBackTopic(s: Sys, id: nat, op: Begin, t: Topic)
    requires s.pub.lastCounts.Some? && Enabled(s, Start(id, op)) && BringsBack(s, op) && TableTopic(After(s.reg, op), t)
    ensures var s' := Next(s, Start(id, op));
            && !Outdated(s', t)
            && ((!Owed(s', t) && !Outdated(s', t) ==> Holds(Target(s'), s'.pub.broker, t)) <==>
                (!Owed(s, t) && !Owes(UpdateFor(s.reg, op), t) ==> Holds(AimNow(After(s.reg, op)), s.pub.broker, t)))
  {
    StartedTopics(s, id, op, t);
    TableTopicHolds(Next(s, Start(id, op)), t);
  }

  lemma SoundTopic(s: Sys, t: Topic)
    requires BrokerSound(s) && !Owed(s, t) && !Outdated(s, t)
    ensures Holds(Target(s), s.pub.broker, t)
  {
  }

  lemma HoldsCongruent(x: Aim, y: Aim, b: Broker, t: Topic)
    requires Goal(x, t) == Goal(y, t) && Holds(x, b, t)
    ensures Holds(y, b, t)
  {
  }

  lemma StartKeepsBroker(s: Sys, id: nat, op: Begin)
    requires R.WellKeyed(s.reg) && R.UniqueOnline(s.reg) && BrokerSound(s) && Enabled(s, Start(id, op)) &&
             Harmless(s, op)
    ensures BrokerSound(Next(s, Start(id, op)))
  {
    var s' := Next(s, Start(id, op));
    StartKeepsCounts(s, id, op);
    StartKeepsTable(s, id, op);
    forall t ensures !Owed(s', t) && !Outdated(s', t) ==> Holds(Target(s'), s'.pub.broker, t) {
      if BringsBack(s, op) && TableTopic(s'.reg, t) {
        BroughtBackTopic(s, id, op, t);
      } else {
        StartKeepsTopic(s, id, op, t);
      }
    }
  }

  /** The condition is exact: a start keeps the broker's part of the invariant if
      and only if it is harmless. */
  lemma HarmlessIsExact(s: Sys, id: nat, op: Begin)
    requires R.WellKeyed(s.reg) && R.UniqueOnline(s.reg) && BrokerSound(s) && Enabled(s, Start(id, op))
    ensures BrokerSound(Next(s, Start(id, op))) <==> Harmless(s, op)
  {
    if Harmless(s, op) {
      StartKeepsBroker(s, id, op);
    } else {
      var t := HarmedTopic(s, op);
      BroughtBackTopic(s, id, op, t);
    }
  }

  lemma HarmedTopic(s: Sys, op: Begin) returns (t: Topic)
    requires Effective(s.reg, op) && !Harmless(s, op)
    ensures TableTopic(After(s.reg, op), t) && !Owed(s, t) && !Owes(UpdateFor(s.reg, op), t)
    ensures !Holds(AimNow(After(s.reg, op)), s.pub.broker, t)
  {
    t :| TableTopic(After(s.reg, op), t) && !Owed(s, t) && !Owes(UpdateFor(s.reg, op), t)
      && !Holds(AimNow(After(s.reg, op)), s.pub.broker, t);
  }

  lemma PublishedTopics(s: Sys, id: nat, t: Topic)
    requires Allowed(s, Publish(id))
    ensures Owed(s, t) <==> Owed(Next(s, Publish(id)), t) || Owes(s.flights[id].update, t)
  {
    var s' := Next(s, Publish(id));
    assert forall i | i in s.flights && i != id :: s'.flights[i] == s.flights[i];
  }

  lemma CachesAfterUpdate(p: Pub, reg: R.Inventory, u: Update)
    ensures var p' := PublishUpdate(p, reg, u);
            && p'.lastCounts == (if SendsCounts(u) then Some(R.CountsOf(reg)) else p.lastCounts)
            && p'.lastSources == (if RefreshesSources(u) then S.TableNow(reg) else p.lastSources)
  {
  }

  lemma PublishKeepsCaches(s: Sys, id: nat)
    requires CountsSound(s) && TableSound(s) && Allowed(s, Publish(id))
    ensures CountsSound(Next(s, Publish(id))) && TableSound(Next(s, Publish(id)))
  {
    var s', u := Next(s, Publish(id)), s.flights[id].update;
    CachesAfterUpdate(s.pub, s.reg, u);
    if !SendsCounts(u) && s.pub.lastCounts != Some(R.CountsOf(s.reg)) {
      var i :| i in s.flights && s.flights[i].unpublished && SendsCounts(s.flights[i].update);
      assert s'.flights[i] == s.flights[i];
    }
    if !RefreshesSources(u) && s.pub.lastSources != S.TableNow(s.reg) {
      var i :| i in s.flights && s.flights[i].unpublished && RefreshesSources(s.flights[i].update);
      assert s'.flights[i] == s.flights[i];
    }
  }

  /** The goal looks at the counters on two topics only. */
  lemma GoalIgnoresCounts(reg: R.Inventory, table: S.Table, c: R.Tally, d: R.Tally, t: Topic)
    requires t !in {KnownState, OnlineState}
    ensures Goal(Aim(reg, table, c), t) == Goal(Aim(reg, table, d), t)
  {
  }

  /** The counters: sent if the update sends them and they differ. */
  lemma PublishKeepsCounter(s: Sys, id: nat, t: Topic)
    requires R.WellKeyed(s.reg) && BrokerSound(s) && Allowed(s, Publish(id)) && UpToDate(s.reg, s.flights[id].update)
    requires t in {KnownState, OnlineState}
    ensures var s' := Next(s, Publish(id)); s'.pub.lastCounts.Some? && Holds(Target(s'), s'.pub.broker, t)
  {
    var s', u := Next(s, Publish(id)), s.flights[id].update;
    UpdateEffect(s.pub, s.reg, u, t);
    SoundTopic(s, t);
    if SendsCounts(u) && s.pub.lastCounts == s'.pub.lastCounts {
      StaysAtGoal(AimNow(s.reg), s.pub.broker, s'.pub.broker, t);
    }
  }

  lemma PublishKeepsTopic(s: Sys, id: nat, t: Topic)
    requires R.WellKeyed(s.reg) && BrokerSound(s) && Allowed(s, Publish(id)) && UpToDate(s.reg, s.flights[id].update)
    requires CountsSound(Next(s, Publish(id))) && t !in {KnownState, OnlineState}
    ensures var s' := Next(s, Publish(id));
            !Owed(s', t) && !Outdated(s', t) ==> Holds(Target(s'), s'.pub.broker, t)
  {
    var s', u := Next(s, Publish(id)), s.flights[id].update;
    PublishedTopics(s, id, t);
    UpdateEffect(s.pub, s.reg, u, t);
    if !Owed(s', t) && !Outdated(s', t) {
      var now, before, after := AimNow(s.reg), Target(s), Target(s');
      GoalIgnoresCounts(s.reg, now.table, before.counts, now.counts, t);
      GoalIgnoresCounts(s.reg, now.table, after.counts, now.counts, t);
      if !Owes(u, t) && !(s.pub.lastSources != s'.pub.lastSources && TableTopic(s.reg, t)) {
        SoundTopic(s, t);
        HoldsCongruent(before, now, s.pub.broker, t);
        StaysAtGoal(now, s.pub.broker, s'.pub.broker, t);
      }
      HoldsCongruent(now, after, s'.pub.broker, t);
    }
  }

  lemma StaysAtGoal(aim: Aim, b: Broker, c: Broker, t: Topic)
    requires Holds(aim, b, t) && OnlyToGoal(aim, b, c, t)
    ensures Holds(aim, c, t)
  {
  }

  /** Publishing an operation clears what it owes. */
  lemma PublishKeeps(s: Sys, id: nat)
    requires Inv(s) && Allowed(s, Publish(id))
    ensures Inv(Next(s, Publish(id)))
  {
    var s' := Next(s, Publish(id));
    PublishedFlags(s, id);
    SaveFlagsKept(s, s');
    FlightsKept(s, s');
    PublishKeepsCaches(s, id);
    forall t ensures !Owed(s', t) && !Outdated(s', t) ==> Holds(Target(s'), s'.pub.broker, t) {
      if t in {KnownState, OnlineState} {
        PublishKeepsCounter(s, id, t);
      } else {
        PublishKeepsTopic(s, id, t);
      }
    }
  }

  lemma PublishedFlags(s: Sys, id: nat)
    requires Allowed(s, Publish(id))
    ensures var s' := Next(s, Publish(id));
            && s'.reg == s.reg && s'.rows == s.rows && s'.flights.Keys == s.flights.Keys
            && forall i | i in s.flights :: s'.flights[i].update == s.flights[i].update &&
                s'.flights[i].unsaved == s.flights[i].unsaved
  {
  }

  /** The store's obligations depend on the flights' updates and save flags only. */
  lemma SaveFlagsKept(s: Sys, s': Sys)
    requires StoreSound(s) && s'.reg == s.reg && s'.rows == s.rows && s'.flights.Keys == s.flights.Keys
    requires forall i | i in s.flights ::
             s'.flights[i].update == s.flights[i].update && s'.flights[i].unsaved == s.flights[i].unsaved
    ensures StoreSound(s')
  {
    forall m ensures OwesName(s', m) <==> OwesName(s, m) {}
    forall m ensures OwesRow(s', m) <==> OwesRow(s, m) {}
  }

  /** Broker obligations depend on updates and publish flags only. */
  lemma PublishFlagsKept(s: Sys, s': Sys)
    requires BrokerSound(s) && s'.reg == s.reg && s'.pub == s.pub && s'.flights.Keys <= s.flights.Keys
    requires forall i | i in s'.flights ::
             s'.flights[i].update == s.flights[i].update && s'.flights[i].unpublished == s.flights[i].unpublished
    requires forall i | i in s.flights && i !in s'.flights :: !s.flights[i].unpublished
    ensures BrokerSound(s')
  {
    assert CountsSound(s') && TableSound(s');
    forall t ensures !Owed(s', t) && !Outdated(s', t) ==> Holds(Target(s'), s'.pub.broker, t) {
      assert Owed(s', t) <==> Owed(s, t);
      if !Owed(s', t) && !Outdated(s', t) {
        SoundTopic(s, t);
      }
    }
  }

  lemma PersistedFlights(s: Sys, id: nat, m: string)
    requires FlightsSound(s) && Allowed(s, Persist(id))
    ensures var s', u := Next(s, Persist(id)), s.flights[id].update;
            && (OwesName(s', m) <==> OwesName(s, m) && Subject(u).mac != m)
            && (OwesRow(s', m) <==> OwesRow(s, m) && Subject(u).mac != m)
            && (Subject(u).mac == m ==> (OwesName(s, m) <==> u.Renamed?) && (OwesRow(s, m) <==> !u.Renamed?))
  {
    var s', u := Next(s, Persist(id)), s.flights[id].update;
    assert forall i | i in s.flights && i != id :: s'.flights[i] == s.flights[i];
    forall i | i in s.flights && i != id ensures Subject(s.flights[i].update).mac != Subject(u).mac {
      DistinctSubjects(s.flights[i].update, u);
    }
  }

  lemma PersistKeepsStore(s: Sys, id: nat)
    requires Base(s) && Allowed(s, Persist(id))
    ensures StoreSound(Next(s, Persist(id)))
  {
    var s', u := Next(s, Persist(id)), s.flights[id].update;
    assert UpToDate(s.reg, u);
    forall m
      ensures m in s'.rows ==> m in s.reg && (!OwesName(s', m) ==> s'.rows[m].name == s.reg[m].name)
      ensures m in s.reg && !OwesRow(s', m) ==> m in s'.rows && HardwareAgrees(s.reg[m], s'.rows[m])
      ensures m in s.reg && m !in s'.rows ==> s.reg[m].name == None
    {
      PersistedFlights(s, id, m);
    }
  }

  /** Saving an operation settles the columns it owns. */
  lemma PersistKeeps(s: Sys, id: nat)
    requires Inv(s) && Allowed(s, Persist(id))
    ensures Inv(Next(s, Persist(id)))
  {
    PersistKeepsStore(s, id);
    PersistedFlags(s, id);
    PublishFlagsKept(s, Next(s, Persist(id)));
    FlightsKept(s, Next(s, Persist(id)));
  }

  lemma PersistedFlags(s: Sys, id: nat)
    requires Allowed(s, Persist(id))
    ensures var s' := Next(s, Persist(id));
            && s'.reg == s.reg && s'.pub == s.pub && s'.flights.Keys == s.flights.Keys
            && forall i | i in s.flights ::
                 && s'.flights[i].update == s.flights[i].update
                 && s'.flights[i].unpublished == s.flights[i].unpublished
                 && (s'.flights[i].unsaved ==> s.flights[i].unsaved)
  {
  }

  lemma FlightsKept(s: Sys, s': Sys)
    requires FlightsSound(s) && s'.reg == s.reg && s'.flights.Keys <= s.flights.Keys
    requires forall i | i in s'.flights :: s'.flights[i].update == s.flights[i].update
    requires forall i | i in s'.flights && s'.flights[i].unsaved :: s.flights[i].unsaved
    ensures FlightsSound(s')
  {
  }

  lemma FinishKeeps(s: Sys, id: nat)
    requires Inv(s) && Allowed(s, Finish(id))
    ensures Inv(Next(s, Finish(id)))
  {
    FinishKeepsRest(s, id);
    FinishKeepsStore(s, id);
  }

  lemma FinishKeepsRest(s: Sys, id: nat)
    requires FlightsSound(s) && BrokerSound(s) && Allowed(s, Finish(id))
    ensures FlightsSound(Next(s, Finish(id))) && BrokerSound(Next(s, Finish(id)))
  {
    var s' := Next(s, Finish(id));
    FinishedFlights(s, id);
    PublishFlagsKept(s, s');
    FlightsKept(s, s');
  }

  lemma FinishKeepsStore(s: Sys, id: nat)
    requires StoreSound(s) && Allowed(s, Finish(id))
    ensures StoreSound(Next(s, Finish(id)))
  {
    var s' := Next(s, Finish(id));
    forall m
      ensures m in s.rows ==> m in s.reg && (!OwesName(s', m) ==> s.rows[m].name == s.reg[m].name)
      ensures m in s.reg && !OwesRow(s', m) ==> m in s.rows && HardwareAgrees(s.reg[m], s.rows[m])
    {
      FinishedOwes(s, id, m);
    }
  }

  lemma FinishedFlights(s: Sys, id: nat)
    requires Allowed(s, Finish(id))
    ensures var s' := Next(s, Finish(id));
            && s'.flights.Keys == s.flights.Keys - {id}
            && forall i | i in s'.flights :: s'.flights[i] == s.flights[i]
  {
  }

  lemma FinishedOwes(s: Sys, id: nat, m: string)
    requires Allowed(s, Finish(id))
    ensures OwesName(Next(s, Finish(id)), m) <==> OwesName(s, m)
    ensures OwesRow(Next(s, Finish(id)), m) <==> OwesRow(s, m)
  {
    var s' := Next(s, Finish(id));
    FinishedFlights(s, id);
    assert forall i | i in s.flights && i != id :: i in s'.flights;
  }

  lemma RecountKeepsTopic(s: Sys, t: Topic)
    requires Inv(s)
    ensures var s' := Next(s, Recount);
            s'.pub.lastCounts.Some? && (!Owed(s', t) && !Outdated(s', t) ==> Holds(Target(s'), s'.pub.broker, t))
  {
    var s' := Next(s, Recount);
    CountsEffect(s.pub, s.reg, t);
    assert Owed(s', t) <==> Owed(s, t);
    if !Owed(s, t) && !Outdated(s', t) {
      SoundTopic(s, t);
      if t !in {KnownState, OnlineState} {
        GoalIgnoresCounts(s.reg, S.TableNow(s.reg), Target(s).counts, Target(s').counts, t);
        HoldsCongruent(Target(s), Target(s'), s.pub.broker, t);
      } else if s.pub.lastCounts == s'.pub.lastCounts {
        StaysAtGoal(Target(s'), s.pub.broker, s'.pub.broker, t);
      }
    }
  }

  lemma RecountKeeps(s: Sys)
    requires Inv(s)
    ensures Inv(Next(s, Recount))
  {
    var s' := Next(s, Recount);
    CountsEffect(s.pub, s.reg, RescanPress);
    SaveFlagsKept(s, s');
    forall t ensures !Owed(s', t) && !Outdated(s', t) ==> Holds(Target(s'), s'.pub.broker, t) {
      RecountKeepsTopic(s, t);
    }
    assert CountsSound(s') && TableSound(s') && FlightsSound(s');
  }

  /** A sweep establishes the broker's part of the invariant from any broker and
      any caches, even with operations in flight. */
  lemma SweepEstablishes(s: Sys)
    requires Base(s)
    ensures Inv(Next(s, Sweep))
  {
    var s' := Next(s, Sweep);
    SaveFlagsKept(s, s');
    EverythingReachesGoal(s.pub, s.reg, RescanPress);
    forall t ensures Holds(Target(s'), s'.pub.broker, t) {
      EverythingReachesGoal(s.pub, s.reg, t);
    }
  }

  lemma StepKeepsInv(s: Sys, l: Label)
    requires Inv(s) && Allowed(s, l)
    ensures Inv(Next(s, l))
  {
    match l
    case Start(id, op) =>
      StartIsLocal(s.reg, op);
      StartKeepsFlights(s, id, op);
      StartKeepsStore(s, id, op);
      StartKeepsBroker(s, id, op);
    case Publish(id) => PublishKeeps(s, id);
    case Persist(id) => PersistKeeps(s, id);
    case Finish(id) => FinishKeeps(s, id);
    case Sweep => SweepEstablishes(s);
    case Recount => RecountKeeps(s);
  }

  // ----- Runs -----

  ghost predicate AllowedRun(s: Sys, run: seq<Label>)
    decreases |run|
  {
    run != [] ==> Allowed(s, run[0]) && AllowedRun(Next(s, run[0]), run[1..])
  }

  ghost function RunSys(s: Sys, run: seq<Label>): Sys
    requires AllowedRun(s, run)
    decreases |run|
  {
    if run == [] then s else RunSys(Next(s, run[0]), run[1..])
  }

  lemma {:induction false} RunKeepsInv(s: Sys, run: seq<Label>)
    requires Inv(s) && AllowedRun(s, run)
    ensures Inv(RunSys(s, run))
    decreases |run|
  {
    if run != [] {
      StepKeepsInv(s, run[0]);
      RunKeepsInv(Next(s, run[0]), run[1..]);
    }
  }

  /** The inventory as a restart can know it: offline, times of contact dropped,
      first contact to the millisecond. */
  function Memory(a: Adapter): Adapter {
    a.(online := false, firstSeenAt := St.ToMilli(a.firstSeenAt), lastSeenAt := 0)
  }

  function MemoryOf(reg: R.Inventory): R.Inventory {
    map m | m in reg :: Memory(reg[m])
  }

  lemma RowIsMemory(a: Adapter, row: St.Row)
    requires a.id == Mac.AdapterID(a.mac) && HardwareAgrees(a, row) && row.name == a.name
    ensures St.AdapterOf(a.mac, row).(lastSeenAt := 0) == Memory(a)
  {
    St.RowRoundTrip(a);
    assert row.(lastSeenAt := None) == St.RowOf(a).(lastSeenAt := None);
  }

  lemma QuietStoreAgrees(s: Sys, m: string)
    requires Base(s) && s.flights == map[]
    ensures m in s.rows <==> m in s.reg
    ensures m in s.reg ==> HardwareAgrees(s.reg[m], s.rows[m]) && s.rows[m].name == s.reg[m].name
  {
    assert !OwesRow(s, m) && !OwesName(s, m);
  }

  lemma RestoredRows(reg: R.Inventory, rows: St.Rows)
    requires R.WellKeyed(reg) && rows.Keys == reg.Keys
    requires forall m | m in reg :: HardwareAgrees(reg[m], rows[m]) && rows[m].name == reg[m].name
    ensures R.Forget(St.Restored(rows)) == MemoryOf(reg)
  {
    var x, y := R.Forget(St.Restored(rows)), MemoryOf(reg);
    forall m | m in y ensures x[m] == y[m] {
      RowIsMemory(reg[m], rows[m]);
    }
  }

  lemma RestoredIsMemory(s: Sys)
    requires Base(s) && s.flights == map[]
    ensures R.Forget(St.Restored(s.rows)) == MemoryOf(s.reg)
  {
    forall m
      ensures m in s.rows <==> m in s.reg
      ensures m in s.reg ==> HardwareAgrees(s.reg[m], s.rows[m]) && s.rows[m].name == s.reg[m].name
    {
      QuietStoreAgrees(s, m);
    }
    RestoredRows(s.reg, s.rows);
  }

  /** With nothing in flight, a sweep changes no retained message and no cache,
      and hydrating a fresh registry from the store gives back the live one,
      offline. */
  ghost predicate Agree(e: Sys) {
    && Swept(e.pub, e.reg) == e.pub
    && e.pub.lastSources == S.TableNow(e.reg) && e.pub.lastCounts == Some(R.CountsOf(e.reg))
    && forall loaded | St.LoadedFrom(e.rows, loaded) :: R.Forget(R.Hydrated(map[], loaded)) == MemoryOf(e.reg)
  }

  lemma QuietAgrees(e: Sys)
    requires Inv(e) && e.flights == map[]
    ensures Agree(e)
  {
    forall t ensures Holds(AimNow(e.reg), e.pub.broker, t) {
      assert !Owed(e, t) && !Outdated(e, t);
    }
    EverythingIdle(e.pub, e.reg);
    forall loaded | St.LoadedFrom(e.rows, loaded) ensures R.Forget(R.Hydrated(map[], loaded)) == MemoryOf(e.reg) {
      St.HydrateRestores(e.rows, loaded);
      RestoredIsMemory(e);
    }
  }

  /** With nothing in flight every topic with a goal carries it. */
  lemma QuietHolds(e: Sys, t: Topic)
    requires Inv(e) && e.flights == map[]
    ensures Holds(AimNow(e.reg), e.pub.broker, t)
  {
    assert !Owed(e, t) && !Outdated(e, t);
  }

  /** The three views agree. Take any state whose operations in flight are
      sound, sweep once, then let operations, publications, saves, sweeps and
      recounts interleave in any allowed way. Whenever nothing is in flight, the
      views agree. */
  lemma ViewsAgree(s: Sys, run: seq<Label>)
    requires Base(s) && AllowedRun(Next(s, Sweep), run)
    requires RunSys(Next(s, Sweep), run).flights == map[]
    ensures Agree(RunSys(Next(s, Sweep), run))
  {
    SweepEstablishes(s);
    RunKeepsInv(Next(s, Sweep), run);
    QuietAgrees(RunSys(Next(s, Sweep), run));
  }

  lemma RestoredRowAgrees(a: Adapter, row: St.Row)
    requires HardwareAgrees(a, row)
    ensures HardwareAgrees(St.AdapterOf(a.mac, row), row)
  {
  }

  /** A restart from a quiet store is a sound state again, whatever the broker
      has come to hold meanwhile: one sweep and everything above applies to the
      next lifetime of the process. */
  lemma RestartIsSound(e: Sys, pub: Pub)
    requires Base(e) && e.flights == map[]
    ensures Base(Sys(St.Restored(e.rows), pub, e.rows, map[]))
  {
    forall m | m in e.rows ensures m in e.reg && HardwareAgrees(St.AdapterOf(m, e.rows[m]), e.rows[m]) {
      QuietStoreAgrees(e, m);
      RestoredRowAgrees(e.reg[m], e.rows[m]);
    }
  }

  /** Role flips leave no stragglers: with nothing in flight, the retained
      config topics of an adapter are exactly those of its current role. */
  lemma NoStraggler(e: Sys, m: string, slot: Slot)
    requires Inv(e) && e.flights == map[] && m in e.reg && slot in CONFIG_SLOTS
    ensures Device(m, slot) in e.pub.broker <==> slot in SlotsOf(EntitiesFor(e.reg[m].role))
  {
    var t := Device(m, slot);
    assert !Owed(e, t) && !Outdated(e, t);
    SoundTopic(e, t);
    ConfigShownIffUsed(e.reg[m], S.TableNow(e.reg), slot);
    SlotsByRole(e.reg[m].role);
  }

  lemma ConfigShownIffUsed(a: Adapter, table: S.Table, slot: Slot)
    requires slot in CONFIG_SLOTS
    ensures Want(a, table, slot).Some?
    ensures Shown(Want(a, table, slot).value).Some? <==> slot in UsedSlots(a.role)
  {
  }
}
