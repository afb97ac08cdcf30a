/** Where agreement ends. Operations that change the source table may overlap, but
    two of them can cancel out, and then nobody republishes what a receiver was
    shown in between. The condition under which that happens is exact. */
module AgreementLimit {
  import opened Text
  import opened Model
  import opened Topics
  import opened Publisher
  import opened Presenter
  import opened Agreement
  import R = Registry
  import S = Sources
  import St = Store
  import Mac

  /** Two transmitters called "n (ch c)" and "n (ch d)", nobody else listed. */
  function Spelled(t: string, u: string, n: string, c: int, d: int): S.Catalogue {
    map[t := S.Tx(S.Disambiguated(S.Tx(n, c)), c), u := S.Tx(S.Disambiguated(S.Tx(n, d)), d)]
  }

  /** The first of them, then both, renamed to plain n. */
  function HalfRenamed(t: string, u: string, n: string, c: int, d: int): S.Catalogue {
    map[t := S.Tx(n, c), u := S.Tx(S.Disambiguated(S.Tx(n, d)), d)]
  }

  function BothRenamed(t: string, u: string, n: string, c: int, d: int): S.Catalogue {
    map[t := S.Tx(n, c), u := S.Tx(n, d)]
  }

  lemma LongerThanName(n: string, c: int)
    ensures S.Disambiguated(S.Tx(n, c)) != n
  {
    assert |S.Disambiguated(S.Tx(n, c))| > |n|;
  }

  lemma EntriesOfTwo(cat: S.Catalogue, t: string, u: string)
    requires cat.Keys == {t, u}
    ensures S.Entries(cat) == {S.Entry(cat, t), S.Entry(cat, u)}
    ensures S.Shared(cat, t) <==> t != u && cat[t].name == cat[u].name
    ensures S.Shared(cat, u) <==> t != u && cat[t].name == cat[u].name
  {
  }

  lemma SpellingsDiffer(n: string, c: int, d: int)
    requires c != d
    ensures S.Disambiguated(S.Tx(n, c)) != S.Disambiguated(S.Tx(n, d))
  {
    if S.Disambiguated(S.Tx(n, c)) == S.Disambiguated(S.Tx(n, d)) {
      S.DisambiguatedInjective(S.Tx(n, c), S.Tx(n, d));
    }
  }

  /** Renaming both gives back the very same table. */
  lemma TablesReturn(t: string, u: string, n: string, c: int, d: int)
    requires t != u && c != d
    ensures S.TableOf(Spelled(t, u, n, c, d)) == S.TableOf(BothRenamed(t, u, n, c, d))
  {
    var a, b := Spelled(t, u, n, c, d), BothRenamed(t, u, n, c, d);
    SpellingsDiffer(n, c, d);
    EntriesOfTwo(a, t, u);
    EntriesOfTwo(b, t, u);
    assert S.Entries(a) == S.Entries(b);
  }

  lemma OptionIffLabel(cat: S.Catalogue, n: string)
    ensures n in S.Options(S.TableOf(cat)) <==> exists m | m in cat :: S.Label(cat, m) == n
  {
    var table := S.TableOf(cat);
    S.TableEntries(cat);
    if m :| m in cat && S.Label(cat, m) == n {
      assert S.Entry(cat, m) in table;
      var k :| 0 <= k < |table| && table[k] == S.Entry(cat, m);
      assert S.Options(table)[k] == n;
    }
    if n in S.Options(table) {
      var k :| 0 <= k < |table| && S.Options(table)[k] == n;
      assert table[k].mac in cat && S.Label(cat, table[k].mac) == n;
    }
  }

  /** Renaming one of them offers n; neither end state does. */
  lemma OptionInBetween(t: string, u: string, n: string, c: int, d: int)
    requires t != u && c != d
    ensures n in S.Options(S.TableOf(HalfRenamed(t, u, n, c, d)))
    ensures n !in S.Options(S.TableOf(Spelled(t, u, n, c, d)))
  {
    var a, h := Spelled(t, u, n, c, d), HalfRenamed(t, u, n, c, d);
    LongerThanName(n, c);
    LongerThanName(n, d);
    SpellingsDiffer(n, c, d);
    EntriesOfTwo(a, t, u);
    EntriesOfTwo(h, t, u);
    OptionIffLabel(h, n);
    OptionIffLabel(a, n);
    assert S.Label(h, t) == n;
  }

  lemma RenameListed(reg: R.Inventory, m: string, name: string)
    requires m in S.CatalogueOf(reg)
    ensures S.CatalogueOf(R.Named(reg, m, Some(name))) ==
            S.CatalogueOf(reg)[m := S.Tx(name, S.CatalogueOf(reg)[m].channel)]
  {
    assert S.CatalogueOf(R.Named(reg, m, Some(name))).Keys == S.CatalogueOf(reg).Keys;
  }

  lemma RenameUnlisted(reg: R.Inventory, m: string, name: string)
    requires m in reg && m !in S.CatalogueOf(reg)
    ensures S.CatalogueOf(R.Named(reg, m, Some(name))) == S.CatalogueOf(reg)
  {
    assert S.CatalogueOf(R.Named(reg, m, Some(name))).Keys == S.CatalogueOf(reg).Keys;
  }

  lemma NamedShape(reg: R.Inventory, m: string, name: string)
    requires R.WellKeyed(reg) && m in reg
    ensures R.WellKeyed(R.Named(reg, m, Some(name))) && R.Named(reg, m, Some(name)).Keys == reg.Keys
    ensures forall k | k in reg && k != m :: R.Named(reg, m, Some(name))[k] == reg[k]
    ensures R.Named(reg, m, Some(name))[m] == reg[m].(name := Some(name))
  {
  }

  /** A publication that does not owe t and finds the table as last published
      leaves t alone. */
  lemma UpdateLeaves(p: Pub, reg: R.Inventory, u: Update, t: Topic)
    requires R.WellKeyed(reg) && UpToDate(reg, u)
    requires t.Device? && !Owes(u, t) && (RefreshesSources(u) ==> p.lastSources == S.TableNow(reg))
    ensures Get(PublishUpdate(p, reg, u).broker, t) == Get(p.broker, t)
    ensures PublishUpdate(p, reg, u).lastSources == p.lastSources
  {
    var aim := AimNow(reg);
    DirectConforms(aim, u, t);
    SendConforming(aim, p.broker, DirectMessages(u, aim.table), t);
    CountsEffect(p.(broker := Send(p.broker, DirectMessages(u, aim.table))), reg, t);
  }

  function SelectTopic(rx: string): Topic {
    Device(rx, Config(Select, SourceId))
  }

  /** The overlapping run: rename t, rename and publish receiver rx, rename u,
      then publish both transmitter renames. */
  ghost function Overlap(s: Sys, t: string, u: string, rx: string, n: string, w: string): Sys
    requires s.flights == map[] && t in s.reg && u in s.reg && rx in s.reg
  {
    SecondHalf(FirstHalf(s, t, rx, n, w), u, n)
  }

  ghost function SecondHalf(c: Sys, u: string, n: string): Sys
    requires c.flights.Keys == {1, 2} && u in c.reg
  {
    var d := Next(c, Start(3, Rename(u, Some(n))));
    var e := Next(d, Publish(1));
    Next(e, Publish(3))
  }

  ghost function FirstHalf(s: Sys, t: string, rx: string, n: string, w: string): (c: Sys)
    requires s.flights == map[] && t in s.reg && rx in s.reg
    ensures c.reg.Keys == s.reg.Keys && c.flights.Keys == {1, 2}
  {
    var a := Next(s, Start(1, Rename(t, Some(n))));
    var b := Next(a, Start(2, Rename(rx, Some(w))));
    Next(b, Publish(2))
  }

  predicate Setting(reg: R.Inventory, t: string, u: string, rx: string, n: string, c: int, d: int) {
    && R.WellKeyed(reg) && t in reg && u in reg && rx in reg && t != u && c != d
    && reg[rx].role == Receiver
    && S.CatalogueOf(reg) == Spelled(t, u, n, c, d)
  }

  /** The registry before the second transmitter is renamed, and after. */
  function Middle(reg: R.Inventory, t: string, rx: string, n: string, w: string): R.Inventory {
    R.Named(R.Named(reg, t, Some(n)), rx, Some(w))
  }

  function End(reg: R.Inventory, t: string, u: string, rx: string, n: string, w: string): R.Inventory {
    R.Named(Middle(reg, t, rx, n, w), u, Some(n))
  }

  lemma FirstRename(reg: R.Inventory, t: string, u: string, n: string, c: int, d: int)
    requires t != u && S.CatalogueOf(reg) == Spelled(t, u, n, c, d)
    ensures S.CatalogueOf(R.Named(reg, t, Some(n))) == HalfRenamed(t, u, n, c, d)
  {
    RenameListed(reg, t, n);
    assert Spelled(t, u, n, c, d)[t := S.Tx(n, c)] == HalfRenamed(t, u, n, c, d);
  }

  lemma SecondRename(reg: R.Inventory, t: string, u: string, n: string, c: int, d: int)
    requires t != u && S.CatalogueOf(reg) == HalfRenamed(t, u, n, c, d)
    ensures S.CatalogueOf(R.Named(reg, u, Some(n))) == BothRenamed(t, u, n, c, d)
  {
    RenameListed(reg, u, n);
    assert HalfRenamed(t, u, n, c, d)[u := S.Tx(n, d)] == BothRenamed(t, u, n, c, d);
  }

  lemma OverlapCatalogues(reg: R.Inventory, t: string, u: string, rx: string, n: string, w: string, c: int, d: int)
    requires Setting(reg, t, u, rx, n, c, d)
    ensures rx != t && rx != u
    ensures S.CatalogueOf(Middle(reg, t, rx, n, w)) == HalfRenamed(t, u, n, c, d)
    ensures S.CatalogueOf(End(reg, t, u, rx, n, w)) == BothRenamed(t, u, n, c, d)
  {
    ReceiverUnlisted(reg, rx);
    assert t in Spelled(t, u, n, c, d) && u in Spelled(t, u, n, c, d);
    FirstRename(reg, t, u, n, c, d);
    RenameUnlisted(R.Named(reg, t, Some(n)), rx, w);
    SecondRename(Middle(reg, t, rx, n, w), t, u, n, c, d);
  }

  lemma ReceiverUnlisted(reg: R.Inventory, rx: string)
    requires rx in reg && reg[rx].role == Receiver
    ensures rx !in S.CatalogueOf(reg)
  {
  }

  lemma OverlapTables(reg: R.Inventory, t: string, u: string, rx: string, n: string, w: string, c: int, d: int)
    requires t != u && c != d && S.CatalogueOf(reg) == Spelled(t, u, n, c, d)
    requires S.CatalogueOf(Middle(reg, t, rx, n, w)) == HalfRenamed(t, u, n, c, d)
    requires S.CatalogueOf(End(reg, t, u, rx, n, w)) == BothRenamed(t, u, n, c, d)
    ensures S.TableNow(End(reg, t, u, rx, n, w)) == S.TableNow(reg)
    ensures S.Options(S.TableNow(Middle(reg, t, rx, n, w))) != S.Options(S.TableNow(reg))
  {
    TablesReturn(t, u, n, c, d);
    OptionInBetween(t, u, n, c, d);
  }

  lemma FirstHalfRun(s: Sys, t: string, rx: string, n: string, w: string)
    requires s.flights == map[] && t in s.reg && rx in s.reg && rx != t
    ensures var c, mid := FirstHalf(s, t, rx, n, w), Middle(s.reg, t, rx, n, w);
            && c.reg == mid && c.pub == PublishUpdate(s.pub, mid, Renamed(mid[rx]))
            && c.flights == map[1 := Flight(Renamed(mid[t]), true, true), 2 := Flight(Renamed(mid[rx]), false, true)]
  {
  }

  lemma SecondHalfRun(c: Sys, u: string, n: string)
    requires c.flights.Keys == {1, 2} && u in c.reg && !c.flights[2].unpublished
    ensures var e, end := SecondHalf(c, u, n), R.Named(c.reg, u, Some(n));
            && e.reg == end && (forall i | i in e.flights :: !e.flights[i].unpublished)
            && e.pub == PublishUpdate(PublishUpdate(c.pub, end, c.flights[1].update), end, Renamed(end[u]))
  {
  }

  lemma OverlapRun(s: Sys, t: string, u: string, rx: string, n: string, w: string)
    requires s.flights == map[] && t in s.reg && u in s.reg && rx in s.reg && rx != t && rx != u && t != u
    ensures var e, mid, end := Overlap(s, t, u, rx, n, w), Middle(s.reg, t, rx, n, w), End(s.reg, t, u, rx, n, w);
            && e.reg == end
            && (forall i | i in e.flights :: !e.flights[i].unpublished)
            && var p := PublishUpdate(s.pub, mid, Renamed(mid[rx]));
               e.pub == PublishUpdate(PublishUpdate(p, end, Renamed(end[t])), end, Renamed(end[u]))
  {
    FirstHalfRun(s, t, rx, n, w);
    SecondHalfRun(FirstHalf(s, t, rx, n, w), u, n);
  }

  /** The options a message on a select topic carries, if it is a config. */
  function ShownOptions(b: Broker, rx: string): Option<seq<string>> {
    var p := Get(b, SelectTopic(rx));
    if p.Some? && p.value.EntityConfig? then Some(p.value.options) else None
  }

  lemma SelectShowsTable(aim: Aim, b: Broker, rx: string)
    requires rx in aim.reg && aim.reg[rx].role == Receiver && Holds(aim, b, SelectTopic(rx))
    ensures ShownOptions(b, rx) == Some(S.Options(aim.table))
  {
  }

  /** From any settled state with two such transmitters and a receiver, for any
      names, the overlapping run ends with every publication done, and still a
      sweep would change the broker: the receiver's select keeps an option that
      existed only in between. */
  lemma OverlappingTableChangesGoStale(s: Sys, t: string, u: string, rx: string, n: string, w: string, c: int, d: int)
    requires Inv(s) && s.flights == map[] && Setting(s.reg, t, u, rx, n, c, d)
    ensures var e := Overlap(s, t, u, rx, n, w);
            && (forall i | i in e.flights :: !e.flights[i].unpublished)
            && Swept(e.pub, e.reg) != e.pub
  {
    OverlapCatalogues(s.reg, t, u, rx, n, w, c, d);
    OverlapTables(s.reg, t, u, rx, n, w, c, d);
    OverlapRun(s, t, u, rx, n, w);
    assert s.pub.lastSources == S.TableNow(s.reg);
    StaleSelect(s.pub, s.reg, t, u, rx, n, w);
  }

  lemma StaleSelect(p: Pub, reg: R.Inventory, t: string, u: string, rx: string, n: string, w: string)
    requires R.WellKeyed(reg) && t in reg && u in reg && rx in reg && rx != t && rx != u && t != u
    requires reg[rx].role == Receiver && p.lastSources == S.TableNow(reg)
    requires S.TableNow(End(reg, t, u, rx, n, w)) == S.TableNow(reg)
    requires S.Options(S.TableNow(Middle(reg, t, rx, n, w))) != S.Options(S.TableNow(reg))
    ensures var mid, end := Middle(reg, t, rx, n, w), End(reg, t, u, rx, n, w);
            var p1 := PublishUpdate(p, mid, Renamed(mid[rx]));
            var p3 := PublishUpdate(PublishUpdate(p1, end, Renamed(end[t])), end, Renamed(end[u]));
            Swept(p3, end) != p3
  {
    var mid, end := Middle(reg, t, rx, n, w), End(reg, t, u, rx, n, w);
    NamedShape(reg, t, n);
    NamedShape(R.Named(reg, t, Some(n)), rx, w);
    NamedShape(mid, u, n);
    AfterMiddle(p, mid, rx);
    var p1 := PublishUpdate(p, mid, Renamed(mid[rx]));
    UpdateLeaves(p1, end, Renamed(end[t]), SelectTopic(rx));
    var p2 := PublishUpdate(p1, end, Renamed(end[t]));
    UpdateLeaves(p2, end, Renamed(end[u]), SelectTopic(rx));
    var p3 := PublishUpdate(p2, end, Renamed(end[u]));
    assert ShownOptions(p3.broker, rx) == ShownOptions(p1.broker, rx);
    SweptShows(p3, end, rx);
  }

  /** The receiver's select after publishing its rename in the middle. */
  lemma AfterMiddle(p: Pub, mid: R.Inventory, rx: string)
    requires R.WellKeyed(mid) && rx in mid && mid[rx].role == Receiver
    ensures ShownOptions(PublishUpdate(p, mid, Renamed(mid[rx])).broker, rx) == Some(S.Options(S.TableNow(mid)))
    ensures PublishUpdate(p, mid, Renamed(mid[rx])).lastSources == p.lastSources
  {
    UpdateEffect(p, mid, Renamed(mid[rx]), SelectTopic(rx));
    SelectShowsTable(AimNow(mid), PublishUpdate(p, mid, Renamed(mid[rx])).broker, rx);
  }

  /** What a sweep would put there. */
  lemma SweptShows(p: Pub, end: R.Inventory, rx: string)
    requires R.WellKeyed(end) && rx in end && end[rx].role == Receiver
    ensures ShownOptions(Swept(p, end).broker, rx) == Some(S.Options(S.TableNow(end)))
  {
    EverythingReachesGoal(p, end, SelectTopic(rx));
    SelectShowsTable(AimNow(end), Swept(p, end).broker, rx);
  }

  // ----- Exactly when -----

  /** No operation starts and no sweep comes to the rescue. */
  predicate Drains(l: Label) {
    !l.Start? && !l.Sweep?
  }

  /** t is wrong, nobody in flight owes it, and the table is the one last sent. */
  ghost predicate Stuck(e: Sys, t: Topic) {
    && R.WellKeyed(e.reg) && (forall i | i in e.flights :: UpToDate(e.reg, e.flights[i].update))
    && TableTopic(e.reg, t) && e.pub.lastSources == S.TableNow(e.reg)
    && !Owed(e, t) && !Holds(AimNow(e.reg), e.pub.broker, t)
  }

  lemma StuckAfterPublish(e: Sys, id: nat, t: Topic)
    requires Stuck(e, t) && Allowed(e, Publish(id))
    ensures Stuck(Next(e, Publish(id)), t)
  {
    PublishedTopics(e, id, t);
    UpdateLeaves(e.pub, e.reg, e.flights[id].update, t);
  }

  lemma StuckStays(e: Sys, l: Label, t: Topic)
    requires Stuck(e, t) && Allowed(e, l) && Drains(l)
    ensures Stuck(Next(e, l), t)
  {
    if l.Publish? {
      StuckAfterPublish(e, l.id, t);
    } else if l.Recount? {
      StuckAfterRecount(e, t);
    } else {
      StuckElsewhere(e, Next(e, l), t);
    }
  }

  lemma StuckAfterRecount(e: Sys, t: Topic)
    requires Stuck(e, t)
    ensures Stuck(Next(e, Recount), t)
  {
    CountsEffect(e.pub, e.reg, t);
  }

  lemma StuckElsewhere(e: Sys, e': Sys, t: Topic)
    requires Stuck(e, t) && e'.reg == e.reg && e'.pub == e.pub && e'.flights.Keys <= e.flights.Keys
    requires forall i | i in e'.flights ::
               e'.flights[i].update == e.flights[i].update && e'.flights[i].unpublished == e.flights[i].unpublished
    ensures Stuck(e', t)
  {
  }

  lemma {:induction false} StuckForGood(e: Sys, run: seq<Label>, t: Topic)
    requires Stuck(e, t) && AllowedRun(e, run) && forall k | 0 <= k < |run| :: Drains(run[k])
    ensures Stuck(RunSys(e, run), t)
    decreases |run|
  {
    if run != [] {
      StuckStays(e, run[0], t);
      StuckForGood(Next(e, run[0]), run[1..], t);
    }
  }

  lemma StuckDisagrees(e: Sys, t: Topic)
    requires Stuck(e, t)
    ensures !Agree(e)
  {
    EverythingReachesGoal(e.pub, e.reg, t);
  }

  lemma HarmIsStuck(s: Sys, id: nat, op: Begin) returns (t: Topic)
    requires Inv(s) && Enabled(s, Start(id, op)) && Disjoint(s, op) && !Harmless(s, op)
    ensures Stuck(Next(s, Start(id, op)), t)
  {
    t := HarmedTopic(s, op);
    StartIsLocal(s.reg, op);
    StartedTopics(s, id, op, t);
    StartKeepsUpdates(s, id, op);
  }

  /** When agreement survives: let an operation start in a sound state, and let
      everything in flight then be published, saved and finished in any order.
      The views agree in the end if and only if the start was harmless. */
  lemma AgreesExactlyWhenHarmless(s: Sys, id: nat, op: Begin, run: seq<Label>)
    requires Inv(s) && Enabled(s, Start(id, op)) && Disjoint(s, op)
    requires AllowedRun(Next(s, Start(id, op)), run) && forall k | 0 <= k < |run| :: Drains(run[k])
    requires RunSys(Next(s, Start(id, op)), run).flights == map[]
    ensures Agree(RunSys(Next(s, Start(id, op)), run)) <==> Harmless(s, op)
  {
    var started := Next(s, Start(id, op));
    if Harmless(s, op) {
      StepKeepsInv(s, Start(id, op));
      RunKeepsInv(started, run);
      QuietAgrees(RunSys(started, run));
    } else {
      var t := HarmIsStuck(s, id, op);
      StuckForGood(started, run, t);
      StuckDisagrees(RunSys(started, run), t);
    }
  }

  // ----- What a scan does -----

  /** A reply from a device never seen before, at an address nobody holds. */
  ghost predicate FirstSighting(reg: R.Inventory, op: Begin) {
    && op.Observe? && Mac.Normalize(op.info.lanMac) != "" && Mac.Normalize(op.info.lanMac) !in reg
    && forall m | m in reg && reg[m].online :: reg[m].ip != op.ip
  }

  lemma SightingIsLocal(reg: R.Inventory, op: Begin)
    requires FirstSighting(reg, op)
    ensures var m := Mac.Normalize(op.info.lanMac);
            && Footprint(UpdateFor(reg, op)) == {m}
            && m in After(reg, op) && After(reg, op)[m].ip == op.ip
            && (forall k | k in reg :: k in After(reg, op) && After(reg, op)[k] == reg[k])
            && (forall k | k in After(reg, op) :: k in reg || k == m)
            && (S.Listed(After(reg, op)[m]) || !RefreshesSources(UpdateFor(reg, op)))
  {
    var m := Mac.Normalize(op.info.lanMac);
    assert R.Occupants(reg, m, op.ip) == {};
  }

  /** The table never goes back to one without the new transmitter. */
  lemma SightingBringsNothingBack(s: Sys, op: Begin, older: R.Inventory)
    requires R.WellKeyed(s.reg) && R.UniqueOnline(s.reg) && FirstSighting(s.reg, op)
    requires Mac.Normalize(op.info.lanMac) !in older && s.pub.lastSources == S.TableNow(older)
    ensures !BringsBack(s, op)
  {
    SightingIsLocal(s.reg, op);
    var m, reg' := Mac.Normalize(op.info.lanMac), After(s.reg, op);
    if S.Listed(reg'[m]) {
      S.TableEntries(S.CatalogueOf(reg'));
      S.TableEntries(S.CatalogueOf(older));
      var cat := S.CatalogueOf(reg');
      assert m in cat && S.Entry(cat, m) in S.TableOf(cat);
    } else {
      StartMovesTable(s.reg, op);
    }
  }

  lemma SightingAllowed(s: Sys, id: nat, op: Begin, older: R.Inventory)
    requires R.WellKeyed(s.reg) && R.UniqueOnline(s.reg) && FirstSighting(s.reg, op) && id !in s.flights
    requires Mac.Normalize(op.info.lanMac) !in older && s.pub.lastSources == S.TableNow(older)
    requires forall i | i in s.flights :: Mac.Normalize(op.info.lanMac) !in Footprint(s.flights[i].update)
    ensures Allowed(s, Start(id, op))
  {
    SightingBringsNothingBack(s, op, older);
    SightingIsLocal(s.reg, op);
  }

  lemma SightingRemains(reg: R.Inventory, x: Begin, y: Begin)
    requires FirstSighting(reg, x) && FirstSighting(reg, y)
    requires x.ip != y.ip && Mac.Normalize(x.info.lanMac) != Mac.Normalize(y.info.lanMac)
    ensures FirstSighting(After(reg, x), y)
  {
    SightingIsLocal(reg, x);
  }

  /** Two workers of a scan may find two new devices at once, transmitters or
      not: both starts are allowed, so agreement covers their overlap. */
  lemma DiscoveriesMayOverlap(s: Sys, x: Begin, y: Begin)
    requires R.WellKeyed(s.reg) && R.UniqueOnline(s.reg) && TableSound(s) && s.flights == map[]
    requires FirstSighting(s.reg, x) && FirstSighting(s.reg, y)
    requires x.ip != y.ip && Mac.Normalize(x.info.lanMac) != Mac.Normalize(y.info.lanMac)
    ensures Allowed(s, Start(1, x)) && Allowed(Next(s, Start(1, x)), Start(2, y))
  {
    SightingAllowed(s, 1, x, s.reg);
    SightingIsLocal(s.reg, x);
    StartIsLocal(s.reg, x);
    SightingRemains(s.reg, x, y);
    var s1 := Next(s, Start(1, x));
    assert s1.flights == map[1 := Flight(UpdateFor(s.reg, x), true, NeedsSave(UpdateFor(s.reg, x)))];
    SightingAllowed(s1, 2, y, s.reg);
  }

  // ----- Such states exist -----

  /** A row for every adapter. */
  function RowsFor(reg: R.Inventory): St.Rows {
    map m | m in reg :: St.RowOf(reg[m])
  }

  lemma SweptStateIsSettled(reg: R.Inventory, pub: Pub)
    requires R.WellKeyed(reg) && R.UniqueOnline(reg)
    ensures Inv(Next(Sys(reg, pub, RowsFor(reg), map[]), Sweep))
  {
    var s := Sys(reg, pub, RowsFor(reg), map[]);
    assert Base(s);
    SweepEstablishes(s);
  }

  function Known(m: string, role: Role, name: string, channel: int): Adapter {
    Adapter(m, Mac.AdapterID(m), role, "", Some(name), "", "", "", "", Some(channel), false, 0, 0)
  }

  function Three(t: string, u: string, rx: string, x: string, y: string, n: string, c: int, d: int): R.Inventory {
    map[t := Known(t, Transmitter, x, c), u := Known(u, Transmitter, y, d), rx := Known(rx, Receiver, n, c)]
  }

  lemma ThreeCatalogue(t: string, u: string, rx: string, x: string, y: string, n: string, c: int, d: int)
    requires t != u && t != rx && u != rx
    ensures S.CatalogueOf(Three(t, u, rx, x, y, n, c, d)) == map[t := S.Tx(x, c), u := S.Tx(y, d)]
  {
    var reg := Three(t, u, rx, x, y, n, c, d);
    assert reg[t] == Known(t, Transmitter, x, c) && reg[u] == Known(u, Transmitter, y, d) &&
        reg[rx] == Known(rx, Receiver, n, c);
    assert S.CatalogueOf(reg).Keys == {t, u};
  }

  lemma ThreeShape(t: string, u: string, rx: string, x: string, y: string, n: string, c: int, d: int)
    requires t != "" && u != "" && rx != ""
    ensures R.WellKeyed(Three(t, u, rx, x, y, n, c, d)) && R.UniqueOnline(Three(t, u, rx, x, y, n, c, d))
  {
    var reg := Three(t, u, rx, x, y, n, c, d);
    assert forall m | m in reg :: reg[m].mac == m && reg[m].id == Mac.AdapterID(m) && !reg[m].online;
  }

  /** For any three devices, any name and any two channels there is a settled
      state from which the overlap goes wrong. */
  lemma OverlapCanHappen(t: string, u: string, rx: string, n: string, w: string, c: int, d: int) returns (s: Sys)
    requires t != u && t != rx && u != rx && c != d && t != "" && u != "" && rx != ""
    ensures Inv(s) && s.flights == map[] && Setting(s.reg, t, u, rx, n, c, d)
    ensures Swept(Overlap(s, t, u, rx, n, w).pub, Overlap(s, t, u, rx, n, w).reg) != Overlap(s, t, u, rx, n, w).pub
  {
    var x, y := S.Disambiguated(S.Tx(n, c)), S.Disambiguated(S.Tx(n, d));
    var reg := Three(t, u, rx, x, y, n, c, d);
    ThreeCatalogue(t, u, rx, x, y, n, c, d);
    ThreeShape(t, u, rx, x, y, n, c, d);
    var pub := Pub(map[], None, []);
    SweptStateIsSettled(reg, pub);
    s := Next(Sys(reg, pub, RowsFor(reg), map[]), Sweep);
    OverlappingTableChangesGoStale(s, t, u, rx, n, w, c, d);
  }
}
