/** Hardware key slots handed out to stations that connect, fail to connect,
    rotate keys and reconnect. */
module KeySlots {
  import opened Basics
  import Rsn

  const PER_CONNECTION: nat := 5
  const PTK: nat := 4

  datatype Entry = Entry(interface: nat, key: Rsn.HwKey)

  /** Free slots and the hardware key table. */
  datatype Table = Table(free: set<nat>, hw: seq<Option<Entry>>)

  /** A free slot belongs to the table and holds no key. */
  ghost predicate TableOk(t: Table) {
    forall k :: k in t.free ==> k < |t.hw| && t.hw[k].None?
  }

  /** The lowest free slot from `from` on. */
  function FirstFree(t: Table, from: nat): (r: Option<nat>)
    requires from <= |t.hw|
    ensures r.Some? ==> from <= r.value < |t.hw| && r.value in t.free
    ensures r.Some? ==> forall k :: from <= k < r.value ==> k !in t.free
    ensures r.None? ==> forall k :: from <= k < |t.hw| ==> k !in t.free
    decreases |t.hw| - from
  {
    if from == |t.hw| then None
    else if from in t.free then Some(from)
    else FirstFree(t, from + 1)
  }

  function Claim(t: Table, k: nat): Table { t.(free := t.free - {k}) }

  /** Up to `n` slots, lowest first. */
  function Take(t: Table, n: nat): (seq<nat>, Table)
    decreases n
  {
    if n == 0 || FirstFree(t, 0).None? then ([], t) else
      var k := FirstFree(t, 0).value;
      var (rest, left) := Take(Claim(t, k), n - 1);
      ([k] + rest, left)
  }

  function Program(t: Table, k: nat, e: Entry): Table
    requires k < |t.hw|
  {
    t.(hw := t.hw[k := Some(e)])
  }

  /** Dropping a slot: the key is deleted and the slot is free again. */
  function Release(t: Table, k: nat): Table {
    Table(t.free + {k}, if k < |t.hw| then t.hw[k := None] else t.hw)
  }

  function ReleaseAll(t: Table, slots: seq<nat>): Table
    decreases slots
  {
    if slots == [] then t else ReleaseAll(Release(t, slots[0]), slots[1..])
  }

  /** Out of `t` the slots were taken, leaving `left`: the lowest free ones, each
      once, as many as asked for or as there are. */
  ghost predicate LowestTaken(t: Table, n: nat, slots: seq<nat>, left: Table) {
    && left.hw == t.hw && Distinct(slots)
    && Elems(slots) <= t.free && left.free == t.free - Elems(slots)
    && (forall k, x :: k in Elems(slots) && x in left.free ==> k < x)
    && |slots| == if |t.free| < n then |t.free| else n
  }

  lemma TakeOne(t: Table, n: nat, k: nat, rest: seq<nat>, left: Table)
    requires k in t.free && (forall x :: x in t.free ==> k <= x) && n >= 1
    requires LowestTaken(Claim(t, k), n - 1, rest, left)
    ensures LowestTaken(t, n, [k] + rest, left)
  {
    ElemsCons(k, rest);
    hide Elems, Distinct;
    assert |t.free - {k}| == |t.free| - 1;
  }

  lemma {:induction false} TakeIsLowest(t: Table, n: nat)
    requires TableOk(t)
    ensures LowestTaken(t, n, Take(t, n).0, Take(t, n).1)
    decreases n
  {
    if n == 0 {
    } else if FirstFree(t, 0).None? {
      assert t.free == {};
    } else {
      var k := FirstFree(t, 0).value;
      TakeIsLowest(Claim(t, k), n - 1);
      var (rest, left) := Take(Claim(t, k), n - 1);
      hide LowestTaken;
      TakeOne(t, n, k, rest, left);
    }
  }

  /** From `t` to `u` just these slots were wiped and freed. */
  ghost predicate Returned(t: Table, u: Table, slots: seq<nat>) {
    && |u.hw| == |t.hw| && u.free == t.free + Elems(slots)
    && forall x :: 0 <= x < |t.hw| ==> u.hw[x] == if x in Elems(slots) then None else t.hw[x]
  }

  lemma {:induction false} ReleaseAllAt(t: Table, slots: seq<nat>)
    ensures Returned(t, ReleaseAll(t, slots), slots)
    decreases slots
  {
    if slots != [] {
      ReleaseAllAt(Release(t, slots[0]), slots[1..]);
      ElemsCons(slots[0], slots[1..]);
      assert [slots[0]] + slots[1..] == slots;
      hide Elems;
    }
  }

  /** Giving back what was just taken leaves no trace. */
  lemma TakeThenRelease(t: Table, n: nat)
    requires TableOk(t)
    ensures ReleaseAll(Take(t, n).1, Take(t, n).0) == t
  {
    TakeIsLowest(t, n);
    var (slots, left) := Take(t, n);
    ReleaseAllAt(left, slots);
    hide Take, ReleaseAll;
    assert ReleaseAll(left, slots).hw == t.hw;
  }

  // ---------------------------------------------------------------- stations

  /** A connection: slots 0 to 3 for the group keys, the last for the pairwise
      key, and the software state that mirrors them. */
  datatype Link = Link(slots: seq<nat>, keys: Rsn.Crypto)

  /** `attempt` lists the slots of a connection attempt under way. */
  datatype Station = Station(attempt: seq<nat>, link: Option<Link>)

  datatype World = World(table: Table, stations: seq<Station>)

  function LinkSlots(st: Station): seq<nat> { if st.link.Some? then st.link.value.slots else [] }
  function Held(st: Station): set<nat> { Elems(st.attempt) + Elems(LinkSlots(st)) }

  datatype Agreed = Agreed(anonce: Rsn.Nonce, snonce: Rsn.Nonce, ptk: Rsn.Key, m3: Rsn.Message3)

  datatype Event =
    | Begin(who: nat, pskOk: bool)
    | Fail(who: nat)
    | Complete(who: nat, agreed: Agreed)
    | Traffic(who: nat, event: Rsn.Event)

  predicate EnabledFor(st: Station, e: Event) {
    match e
    case Begin(_, _) => st.attempt == []
    case Fail(_) => st.attempt != []
    case Complete(_, agreed) => st.attempt != [] && agreed.m3.gtkId < Rsn.GROUP_KEYS
    case Traffic(_, _) => st.link.Some?
  }

  predicate Enabled(w: World, e: Event) { e.who < |w.stations| && EnabledFor(w.stations[e.who], e) }

  /** Shapes that keep every index below in range. */
  predicate Sane(t: Table, st: Station) {
    && |st.attempt| in {0, PER_CONNECTION} && InTable(t, st.attempt)
    && (st.link.Some? ==> |st.link.value.slots| == PER_CONNECTION && Rsn.ShapeOk(st.link.value.keys))
    && InTable(t, LinkSlots(st))
  }

  predicate InTable(t: Table, slots: seq<nat>) { forall k :: 0 <= k < |slots| ==> slots[k] < |t.hw| }

  /** The group key a step of the connection writes to hardware. */
  function Written(s: Rsn.Crypto, e: Rsn.Event): Option<Rsn.GroupMessage1>
    requires Rsn.ShapeOk(s)
  {
    if e.Eapol? && Rsn.PnOk(s, e.frame) && e.frame.content.Group? && e.frame.content.g1.Some?
       && Rsn.Judge(Rsn.AfterPn(s, e.frame), e.frame.content.g1.value) == Rsn.Verdict.Fresh(true)
    then e.frame.content.g1 else None
  }

  function GroupEntry(i: nat, id: nat, key: Rsn.Key): Entry { Entry(i, Rsn.HwKey(id, key, true)) }

  /** `CryptoState::new` on the attempt's slots. */
  function ProgramNew(t: Table, i: nat, slots: seq<nat>, a: Agreed): Table
    requires |slots| == PER_CONNECTION && a.m3.gtkId < Rsn.GROUP_KEYS && InTable(t, slots)
  {
    Program(Program(t, slots[PTK], Entry(i, Rsn.HwKey(0, a.ptk, false))),
            slots[a.m3.gtkId], GroupEntry(i, a.m3.gtkId, a.m3.gtk))
  }

  /** One step of station `i`. An attempt that cannot get all five slots, or has
      no usable passphrase, returns what it took. The new keys are programmed
      before the connection they replace is dropped. */
  function StepOf(t: Table, i: nat, st: Station, e: Event): (Table, Station)
    requires EnabledFor(st, e) && Sane(t, st)
  {
    match e
    case Begin(_, pskOk) =>
      var (slots, left) := Take(t, PER_CONNECTION);
      if pskOk && |slots| == PER_CONNECTION then (left, st.(attempt := slots)) else (ReleaseAll(left, slots), st)
    case Fail(_) => (ReleaseAll(t, st.attempt), st.(attempt := []))
    case Complete(_, a) =>
      (ReleaseAll(ProgramNew(t, i, st.attempt, a), LinkSlots(st)),
       Station([], Some(Link(st.attempt, Rsn.NewCrypto(a.anonce, a.snonce, a.ptk, a.m3)))))
    case Traffic(_, event) =>
      var link := st.link.value;
      var t' := match Written(link.keys, event)
                case None => t
                case Some(m) => Program(t, link.slots[m.keyId], GroupEntry(i, m.keyId, m.key));
      (t', st.(link := Some(link.(keys := Rsn.Step(link.keys, event)))))
  }

  function Apply(w: World, e: Event): World
    requires Enabled(w, e) && Sane(w.table, w.stations[e.who])
  {
    var (t, st) := StepOf(w.table, e.who, w.stations[e.who], e);
    World(t, w.stations[e.who := st])
  }

  // --------------------------------------------------------------- invariant

  function Tagged(i: nat, key: Option<Rsn.HwKey>): Option<Entry> {
    match key case None => None case Some(k) => Some(Entry(i, k))
  }

  /** What the software believes slot `k` of its five to hold. */
  function Believed(s: Rsn.Crypto, k: nat): Option<Rsn.HwKey>
    requires Rsn.ShapeOk(s) && k < PER_CONNECTION
  {
    if k == PTK then s.ptkSlot else s.gtkSlots[k]
  }

  /** The hardware holds exactly the keys of this connection. */
  ghost predicate Mirrored(t: Table, i: nat, link: Link)
    requires |link.slots| == PER_CONNECTION && InTable(t, link.slots) && Rsn.ShapeOk(link.keys)
  {
    forall k :: 0 <= k < PER_CONNECTION ==> t.hw[link.slots[k]] == Tagged(i, Believed(link.keys, k))
  }

  ghost predicate LinkOk(t: Table, i: nat, link: Link) {
    && |link.slots| == PER_CONNECTION && InTable(t, link.slots) && Distinct(link.slots) && Elems(link.slots) !! t.free
    && Rsn.Inv(link.keys) && Rsn.ShapeOk(link.keys) && Mirrored(t, i, link)
  }

  ghost predicate AttemptOk(t: Table, slots: seq<nat>) {
    && |slots| in {0, PER_CONNECTION} && InTable(t, slots) && Distinct(slots) && Elems(slots) !! t.free
    && forall k :: 0 <= k < |slots| ==> t.hw[slots[k]].None?
  }

  ghost predicate StationOk(t: Table, i: nat, st: Station) {
    && AttemptOk(t, st.attempt) && (st.link.Some? ==> LinkOk(t, i, st.link.value))
    && Elems(st.attempt) !! Elems(LinkSlots(st))
  }

  ghost predicate Apart(a: Station, b: Station) { Held(a) !! Held(b) }

  ghost predicate WorldInv(w: World) {
    && TableOk(w.table)
    && (forall i :: 0 <= i < |w.stations| ==> StationOk(w.table, i, w.stations[i]))
    && (forall i, j :: 0 <= i < |w.stations| && 0 <= j < |w.stations| && i != j ==> Apart(w.stations[i], w.stations[j]))
    && (forall x :: 0 <= x < |w.table.hw| ==> x in w.table.free || HeldBySome(w, x))
  }

  ghost predicate HeldBySome(w: World, x: nat) { exists i :: 0 <= i < |w.stations| && x in Held(w.stations[i]) }

  /** A step of one station moves slots between it and the free ones only. */
  ghost predicate Local(t: Table, st: Station, t': Table, st': Station) {
    && t'.free + Held(st') == t.free + Held(st)
    && Agree(t, t', t.free + Held(st))
  }

  /** Equal hardware tables but for the slots in `touched`. */
  ghost predicate Agree(t: Table, t': Table, touched: set<nat>) {
    |t'.hw| == |t.hw| && forall x :: 0 <= x < |t.hw| && x !in touched ==> t'.hw[x] == t.hw[x]
  }

  lemma LinkFrame(t: Table, t': Table, touched: set<nat>, i: nat, link: Link)
    requires LinkOk(t, i, link) && Agree(t, t', touched) && Elems(link.slots) !! touched + t'.free
    ensures LinkOk(t', i, link)
  {
    hide Rsn.Inv;
  }

  lemma AttemptFrame(t: Table, t': Table, touched: set<nat>, slots: seq<nat>)
    requires AttemptOk(t, slots) && Agree(t, t', touched) && Elems(slots) !! touched + t'.free
    ensures AttemptOk(t', slots)
  {
  }

  lemma LocalKeepsOthers(t: Table, st: Station, t': Table, st': Station, j: nat, other: Station)
    requires Local(t, st, t', st') && StationOk(t, j, other) && Held(st) !! Held(other)
    ensures StationOk(t', j, other) && Held(st') !! Held(other)
  {
    assert Held(other) !! t.free by {
      hide InTable, Distinct, Mirrored, Rsn.Inv, Rsn.ShapeOk;
    }
    hide LinkOk, AttemptOk, Agree, Elems;
    var touched := t.free + Held(st);
    assert Held(other) !! touched + t'.free + Held(st');
    AttemptFrame(t, t', touched, other.attempt);
    if other.link.Some? {
      LinkFrame(t, t', touched, j, other.link.value);
    }
  }

  lemma SaneIfOk(t: Table, i: nat, st: Station)
    requires StationOk(t, i, st)
    ensures Sane(t, st) && Held(st) !! t.free
  {
    hide Rsn.Inv, Mirrored, Distinct;
  }

  /** What one step of station `i` has to establish. */
  ghost predicate StepOk(t: Table, i: nat, st: Station, t': Table, st': Station) {
    TableOk(t') && StationOk(t', i, st') && Local(t, st, t', st')
  }

  lemma StandStill(t: Table, i: nat, st: Station)
    requires TableOk(t) && StationOk(t, i, st)
    ensures StepOk(t, i, st, t, st)
  {
  }

  lemma BeginTakes(t: Table, i: nat, st: Station, slots: seq<nat>, left: Table)
    requires TableOk(t) && StationOk(t, i, st) && st.attempt == []
    requires AttemptOk(left, slots) && TableOk(left)
    requires left.hw == t.hw && Elems(slots) <= t.free && left.free == t.free - Elems(slots)
    ensures StepOk(t, i, st, left, st.(attempt := slots))
  {
    SaneIfOk(t, i, st);
    assert Elems(st.attempt) == {};
    hide AttemptOk, Elems, LinkOk, TableOk, Sane;
    var st' := st.(attempt := slots);
    MoveOver(t.free, Elems(slots), Held(st));
    if st.link.Some? {
      LinkFrame(t, left, {}, i, st.link.value);
    }
  }

  lemma MoveOver(from: set<nat>, moved: set<nat>, to: set<nat>)
    requires moved <= from
    ensures (from - moved) + (moved + to) == from + to
  {
  }

  lemma TakenAreEmpty(t: Table, slots: seq<nat>, left: Table)
    requires TableOk(t) && LowestTaken(t, PER_CONNECTION, slots, left) && |slots| == PER_CONNECTION
    ensures AttemptOk(left, slots) && TableOk(left)
    ensures left.hw == t.hw && Elems(slots) <= t.free && left.free == t.free - Elems(slots)
  {
    ElemsAt(slots);
    hide Elems, Distinct;
  }

  lemma BeginOk(t: Table, i: nat, st: Station, e: Event)
    requires TableOk(t) && StationOk(t, i, st) && EnabledFor(st, e) && e.Begin?
    ensures Sane(t, st)
    ensures var (t', st') := StepOf(t, i, st, e); StepOk(t, i, st, t', st')
  {
    SaneIfOk(t, i, st);
    TakeIsLowest(t, PER_CONNECTION);
    TakeThenRelease(t, PER_CONNECTION);
    var (slots, left) := Take(t, PER_CONNECTION);
    hide Take, ReleaseAll, StationOk, LowestTaken, TableOk, StepOk;
    StandStill(t, i, st);
    if |slots| == PER_CONNECTION {
      TakenAreEmpty(t, slots, left);
      hide AttemptOk;
      BeginTakes(t, i, st, slots, left);
    }
  }

  lemma FailOk(t: Table, i: nat, st: Station, e: Event)
    requires TableOk(t) && StationOk(t, i, st) && EnabledFor(st, e) && e.Fail?
    ensures Sane(t, st)
    ensures var (t', st') := StepOf(t, i, st, e); StepOk(t, i, st, t', st')
  {
    SaneIfOk(t, i, st);
    ReleaseAllAt(t, st.attempt);
    var t' := ReleaseAll(t, st.attempt);
    FailReturns(t, i, st, t');
  }

  lemma FailReturns(t: Table, i: nat, st: Station, t': Table)
    requires TableOk(t) && StationOk(t, i, st) && Returned(t, t', st.attempt)
    ensures StepOk(t, i, st, t', st.(attempt := []))
  {
    SaneIfOk(t, i, st);
    ElemsAt(st.attempt);
    assert Elems([]) == {};
    assert TableOk(t');
    hide Elems, TableOk;
    if st.link.Some? {
      hide LinkOk;
      LinkFrame(t, t', Elems(st.attempt), i, st.link.value);
    }
  }

  /** A new connection on the attempt's slots: they held nothing, and now hold
      exactly the two keys the software starts with. */
  lemma NewLinkOk(t: Table, i: nat, slots: seq<nat>, a: Agreed)
    requires AttemptOk(t, slots) && |slots| == PER_CONNECTION && a.m3.gtkId < Rsn.GROUP_KEYS
    ensures LinkOk(ProgramNew(t, i, slots, a), i, Link(slots, Rsn.NewCrypto(a.anonce, a.snonce, a.ptk, a.m3)))
    ensures ProgramNew(t, i, slots, a).free == t.free && Agree(t, ProgramNew(t, i, slots, a), Elems(slots))
  {
    Rsn.NewInv(a.anonce, a.snonce, a.ptk, a.m3);
    ElemsAt(slots);
    hide Rsn.Inv, Elems;
  }

  lemma CompleteOk(t: Table, i: nat, st: Station, e: Event)
    requires TableOk(t) && StationOk(t, i, st) && EnabledFor(st, e) && e.Complete?
    ensures Sane(t, st)
    ensures var (t', st') := StepOf(t, i, st, e); StepOk(t, i, st, t', st')
  {
    SaneIfOk(t, i, st);
    NewLinkOk(t, i, st.attempt, e.agreed);
    var t1 := ProgramNew(t, i, st.attempt, e.agreed);
    ReleaseAllAt(t1, LinkSlots(st));
    var link := Link(st.attempt, Rsn.NewCrypto(e.agreed.anonce, e.agreed.snonce, e.agreed.ptk, e.agreed.m3));
    hide ProgramNew, ReleaseAll, Rsn.NewCrypto, TableOk, LinkOk, StepOk, Returned, Agree, StationOk;
    Replaced(t, t1, ReleaseAll(t1, LinkSlots(st)), i, st, link);
  }

  /** The old connection goes once the new one stands: its slots are wiped and
      freed, and none of them is a slot of the new one. */
  lemma Replaced(t: Table, t1: Table, t': Table, i: nat, st: Station, link: Link)
    requires TableOk(t) && StationOk(t, i, st) && st.attempt != []
    requires LinkOk(t1, i, link) && link.slots == st.attempt && t1.free == t.free && Agree(t, t1, Elems(st.attempt))
    requires Returned(t1, t', LinkSlots(st))
    ensures StepOk(t, i, st, t', Station([], Some(link)))
  {
    hide LinkOk, TableOk, Sane, StationOk;
    SaneIfOk(t, i, st);
    ReleasedTableOk(t, t1, t', st);
    NewApartFromOld(t, i, st);
    hide Elems;
    LinkFrame(t1, t', Elems(LinkSlots(st)), i, link);
    NothingPending(t', i, link);
    assert Elems([]) == {} by { ElemsCard([]); }
    assert Local(t, st, t', Station([], Some(link)));
  }

  /** Wiped slots join the free ones. */
  lemma ReleasedTableOk(t: Table, t1: Table, t': Table, st: Station)
    requires TableOk(t) && Held(st) !! t.free && Sane(t, st)
    requires t1.free == t.free && Agree(t, t1, Elems(st.attempt)) && Returned(t1, t', LinkSlots(st))
    ensures TableOk(t')
  {
    ElemsAt(LinkSlots(st));
    SlotsInTable(t, LinkSlots(st));
    hide Elems;
  }

  lemma SlotsInTable(t: Table, slots: seq<nat>)
    requires InTable(t, slots)
    ensures forall x :: x in Elems(slots) ==> x < |t.hw|
  {
  }

  lemma NewApartFromOld(t: Table, i: nat, st: Station)
    requires StationOk(t, i, st)
    ensures Elems(st.attempt) !! Elems(LinkSlots(st)) + t.free
  {
    hide LinkOk, Elems;
  }

  lemma NothingPending(t: Table, i: nat, link: Link)
    requires LinkOk(t, i, link)
    ensures StationOk(t, i, Station([], Some(link)))
  {
    hide LinkOk;
  }

  /** The hardware write of a step is the change of the software's own picture. */
  lemma WrittenIsMirrored(s: Rsn.Crypto, e: Rsn.Event)
    requires Rsn.Inv(s)
    ensures var s' := Rsn.Step(s, e);
            && Rsn.ShapeOk(s') && s'.ptkSlot == s.ptkSlot
            && match Written(s, e)
               case None => s'.gtkSlots == s.gtkSlots
               case Some(m) =>
                 m.keyId < Rsn.GROUP_KEYS && s'.gtkSlots == s.gtkSlots[m.keyId := Some(Rsn.HwKey(m.keyId, m.key, true))]
  {
    hide Rsn.FloorInv;
  }

  lemma TrafficOk(t: Table, i: nat, st: Station, e: Event)
    requires TableOk(t) && StationOk(t, i, st) && EnabledFor(st, e) && e.Traffic?
    ensures Sane(t, st)
    ensures var (t', st') := StepOf(t, i, st, e); StepOk(t, i, st, t', st')
  {
    SaneIfOk(t, i, st);
    var link := st.link.value;
    WrittenIsMirrored(link.keys, e.event);
    Rsn.StepInv(link.keys, e.event);
    var link' := link.(keys := Rsn.Step(link.keys, e.event));
    match Written(link.keys, e.event) {
      case None =>
        hide Rsn.Inv, Rsn.Step, Written;
        Rekeyed(t, t, i, st, link');
      case Some(m) =>
        hide Rsn.Inv, Rsn.Step, Written;
        ElemsAt(link.slots);
        Rekeyed(t, Program(t, link.slots[m.keyId], GroupEntry(i, m.keyId, m.key)), i, st, link');
    }
  }

  lemma Rekeyed(t: Table, t': Table, i: nat, st: Station, link: Link)
    requires TableOk(t) && StationOk(t, i, st) && st.link.Some? && link.slots == st.link.value.slots
    requires t'.free == t.free && Agree(t, t', Elems(link.slots))
    requires Rsn.Inv(link.keys) && Rsn.ShapeOk(link.keys) && Mirrored(t', i, link)
    ensures StepOk(t, i, st, t', st.(link := Some(link)))
  {
    SaneIfOk(t, i, st);
    assert LinkOk(t', i, link);
    hide Rsn.Inv, Rsn.ShapeOk, Elems, LinkOk;
    AttemptFrame(t, t', Elems(link.slots), st.attempt);
  }

  lemma StepOfOk(t: Table, i: nat, st: Station, e: Event)
    requires TableOk(t) && StationOk(t, i, st) && EnabledFor(st, e)
    ensures Sane(t, st)
    ensures var (t', st') := StepOf(t, i, st, e); StepOk(t, i, st, t', st')
  {
    hide TableOk, StationOk, StepOk, StepOf;
    match e
    case Begin(_, _) => BeginOk(t, i, st, e);
    case Fail(_) => FailOk(t, i, st, e);
    case Complete(_, _) => CompleteOk(t, i, st, e);
    case Traffic(_, _) => TrafficOk(t, i, st, e);
  }

  lemma StillCovered(w: World, i: nat, t': Table, st': Station)
    requires WorldInv(w) && i < |w.stations| && Local(w.table, w.stations[i], t', st')
    ensures |t'.hw| == |w.table.hw|
    ensures forall x :: 0 <= x < |t'.hw| ==> x in t'.free || HeldBySome(World(t', w.stations[i := st']), x)
  {
    hide Held, StationOk, TableOk, Apart;
    var w' := World(t', w.stations[i := st']);
    assert w'.stations[i] == st';
    forall x | 0 <= x < |t'.hw| && x !in t'.free + Held(st')
      ensures HeldBySome(w', x)
    {
      assert x !in w.table.free + Held(w.stations[i]);
      var j :| 0 <= j < |w.stations| && x in Held(w.stations[j]);
      assert w'.stations[j] == w.stations[j];
    }
  }

  lemma StationsStayApart(w: World, i: nat, t': Table, st': Station)
    requires WorldInv(w) && i < |w.stations| && Local(w.table, w.stations[i], t', st')
    ensures forall j :: 0 <= j < |w.stations| && j != i ==>
              StationOk(t', j, w.stations[j]) && Apart(st', w.stations[j]) && Apart(w.stations[j], st')
  {
    hide StationOk, TableOk, Held, Local;
    forall j | 0 <= j < |w.stations| && j != i
      ensures StationOk(t', j, w.stations[j]) && Apart(st', w.stations[j]) && Apart(w.stations[j], st')
    {
      assert Apart(w.stations[i], w.stations[j]);
      LocalKeepsOthers(w.table, w.stations[i], t', st', j, w.stations[j]);
    }
  }

  lemma StepInv(w: World, e: Event)
    requires WorldInv(w) && Enabled(w, e)
    ensures Sane(w.table, w.stations[e.who])
    ensures WorldInv(Apply(w, e))
  {
    var i, st := e.who, w.stations[e.who];
    hide WorldInv, StationOk, TableOk, Sane, EnabledFor, Local, StepOf;
    StationAt(w, i);
    StepOfOk(w.table, i, st, e);
    var (t', st') := StepOf(w.table, i, st, e);
    StationsStayApart(w, i, t', st');
    StillCovered(w, i, t', st');
    Together(w, i, t', st');
  }

  lemma StationAt(w: World, i: nat)
    requires WorldInv(w) && i < |w.stations|
    ensures TableOk(w.table) && StationOk(w.table, i, w.stations[i])
  {
    hide StationOk, TableOk, Apart, HeldBySome;
  }

  /** The parts of the invariant after a step of station `i`. */
  lemma Together(w: World, i: nat, t': Table, st': Station)
    requires WorldInv(w) && i < |w.stations| && TableOk(t') && StationOk(t', i, st')
    requires forall j :: 0 <= j < |w.stations| && j != i ==>
               StationOk(t', j, w.stations[j]) && Apart(st', w.stations[j]) && Apart(w.stations[j], st')
    requires forall x :: 0 <= x < |t'.hw| ==> x in t'.free || HeldBySome(World(t', w.stations[i := st']), x)
    ensures WorldInv(World(t', w.stations[i := st']))
  {
    hide StationOk, TableOk, Apart, HeldBySome;
  }

  // ------------------------------------------------------------------- runs

  function Fresh(count: nat, stations: nat): World {
    World(Table(Buffers(count), seq(count, _ => None)), seq(stations, _ => Station([], None)))
  }

  ghost predicate IsStep(w: World, e: Event, w': World) {
    Enabled(w, e) && Sane(w.table, w.stations[e.who]) && w' == Apply(w, e)
  }

  /** From `count` free slots and `stations` idle stations. */
  ghost predicate IsRun(count: nat, stations: nat, ws: seq<World>, es: seq<Event>) {
    && |ws| == |es| + 1 && ws[0] == Fresh(count, stations)
    && forall i :: 0 <= i < |es| ==> IsStep(ws[i], es[i], ws[i + 1])
  }

  lemma FreshInv(count: nat, stations: nat)
    ensures WorldInv(Fresh(count, stations))
  {
  }

  lemma {:induction false} RunInv(count: nat, stations: nat, ws: seq<World>, es: seq<Event>, i: nat)
    requires IsRun(count, stations, ws, es) && i < |ws|
    ensures WorldInv(ws[i]) && |ws[i].table.hw| == count && |ws[i].stations| == stations
  {
    hide WorldInv;
    if i == 0 {
      FreshInv(count, stations);
    } else {
      RunInv(count, stations, ws, es, i - 1);
      assert IsStep(ws[i - 1], es[i - 1], ws[i]);
      hide IsRun, Fresh;
      StepInv(ws[i - 1], es[i - 1]);
      StepShape(ws[i - 1], es[i - 1]);
    }
  }

  lemma StepShape(w: World, e: Event)
    requires WorldInv(w) && Enabled(w, e) && Sane(w.table, w.stations[e.who])
    ensures |Apply(w, e).table.hw| == |w.table.hw| && |Apply(w, e).stations| == |w.stations|
  {
    hide TableOk, StationOk, StepOf, Apart, HeldBySome, EnabledFor;
    StepOfOk(w.table, e.who, w.stations[e.who], e);
  }

  function Slots(st: Station): seq<nat> { st.attempt + LinkSlots(st) }

  /** Live slots are pairwise distinct, whichever stations hold them and whether
      for an attempt or a connection, and none is also free. */
  lemma LiveSlotsDistinct(count: nat, stations: nat, ws: seq<World>, es: seq<Event>, n: nat,
                          i: nat, p: nat, j: nat, q: nat)
    requires IsRun(count, stations, ws, es) && n < |ws| && i < stations && j < stations
    requires |ws[n].stations| == stations && (i != j || p != q)
    requires p < |Slots(ws[n].stations[i])| && q < |Slots(ws[n].stations[j])|
    ensures Slots(ws[n].stations[i])[p] != Slots(ws[n].stations[j])[q]
    ensures Slots(ws[n].stations[i])[p] < count && Slots(ws[n].stations[i])[p] !in ws[n].table.free
  {
    RunInv(count, stations, ws, es, n);
    hide IsRun, HeldBySome, TableOk;
    var a, b := ws[n].stations[i], ws[n].stations[j];
    assert StationOk(ws[n].table, i, a);
    SlotsOk(ws[n].table, i, a);
    SlotsOk(ws[n].table, j, b);
    assert i != j ==> Apart(a, b);
    hide StationOk, Held, WorldInv;
  }

  lemma SlotsOk(t: Table, i: nat, st: Station)
    requires StationOk(t, i, st)
    ensures Distinct(Slots(st)) && InTable(t, Slots(st))
    ensures forall p :: 0 <= p < |Slots(st)| ==> Slots(st)[p] in Held(st) && Slots(st)[p] !in t.free
  {
    ElemsAt(st.attempt);
    ElemsAt(LinkSlots(st));
    hide Elems, Rsn.Inv, Rsn.ShapeOk, Mirrored;
  }

  /** In every run the hardware holds exactly the software's keys: the pairwise
      key of each connection, and its group key at each ID or nothing. */
  lemma HardwareMirrorsSoftware(count: nat, stations: nat, ws: seq<World>, es: seq<Event>, n: nat, i: nat, id: nat)
    requires IsRun(count, stations, ws, es) && n < |ws| && |ws[n].stations| == stations
    requires i < stations && id < Rsn.GROUP_KEYS
    requires ws[n].stations[i].link.Some?
    ensures var link := ws[n].stations[i].link.value;
            var hw := ws[n].table.hw;
            && |link.slots| == PER_CONNECTION && InTable(ws[n].table, link.slots) && Rsn.ShapeOk(link.keys)
            && hw[link.slots[PTK]] == Some(Entry(i, Rsn.HwKey(0, link.keys.ptk.key, false)))
            && hw[link.slots[id]] == match link.keys.groupKeys[id]
                                     case None => None
                                     case Some(k) => Some(GroupEntry(i, id, k.key))
  {
    RunInv(count, stations, ws, es, n);
    hide IsRun;
    assert StationOk(ws[n].table, i, ws[n].stations[i]);
    hide WorldInv, Rsn.FloorInv, TableOk;
  }

  /** A programmed slot belongs to the connection that programmed it: no key
      outlives its connection. */
  lemma NoStrayKeys(count: nat, stations: nat, ws: seq<World>, es: seq<Event>, n: nat, x: nat)
    requires IsRun(count, stations, ws, es) && n < |ws| && |ws[n].table.hw| == count && x < count
    requires ws[n].table.hw[x].Some?
    ensures var i := ws[n].table.hw[x].value.interface;
            i < |ws[n].stations| && x in LinkSlots(ws[n].stations[i])
  {
    RunInv(count, stations, ws, es, n);
    var w := ws[n];
    hide IsRun, Apart;
    assert x !in w.table.free;
    var i :| 0 <= i < |w.stations| && x in Held(w.stations[i]);
    assert StationOk(w.table, i, w.stations[i]);
    hide TableOk, WorldInv, HeldBySome;
    ProgrammedIsLinked(w.table, i, w.stations[i], x);
  }

  lemma ProgrammedIsLinked(t: Table, i: nat, st: Station, x: nat)
    requires StationOk(t, i, st) && x in Held(st) && x < |t.hw| && t.hw[x].Some?
    ensures x in LinkSlots(st) && t.hw[x].value.interface == i
  {
    hide Rsn.Inv;
    assert x !in st.attempt;
    var k :| 0 <= k < |LinkSlots(st)| && LinkSlots(st)[k] == x;
  }

  /** Reconnecting: after the step the new connection's slots hold the keys it
      programmed, although the old state was dropped last; the old slots are free
      and empty, and no other station's slot changed. */
  lemma ReconnectKeepsNewKeys(count: nat, stations: nat, ws: seq<World>, es: seq<Event>, n: nat)
    requires IsRun(count, stations, ws, es) && n < |es| && es[n].Complete? && es[n].who < |ws[n].stations|
    ensures var who, a, t, t' := es[n].who, es[n].agreed, ws[n].table, ws[n + 1].table;
            var st := ws[n].stations[who];
            && |st.attempt| == PER_CONNECTION && InTable(t', st.attempt) && a.m3.gtkId < Rsn.GROUP_KEYS
            && t'.hw[st.attempt[PTK]] == Some(Entry(who, Rsn.HwKey(0, a.ptk, false)))
            && t'.hw[st.attempt[a.m3.gtkId]] == Some(GroupEntry(who, a.m3.gtkId, a.m3.gtk))
            && Elems(LinkSlots(st)) <= t'.free && TableOk(t')
            && Agree(t, t', Held(st))
  {
    RunInv(count, stations, ws, es, n);
    RunInv(count, stations, ws, es, n + 1);
    assert IsStep(ws[n], es[n], ws[n + 1]);
    hide IsRun;
    var who := es[n].who;
    var st := ws[n].stations[who];
    assert StationOk(ws[n].table, who, st);
    assert StationOk(ws[n + 1].table, who, ws[n + 1].stations[who]);
    hide WorldInv;
    ReplacedExactly(ws[n].table, who, st, es[n]);
  }

  lemma ReplacedExactly(t: Table, i: nat, st: Station, e: Event)
    requires StationOk(t, i, st) && EnabledFor(st, e) && e.Complete? && Sane(t, st)
    ensures var t' := StepOf(t, i, st, e).0;
            && |t'.hw| == |t.hw|
            && t'.hw[st.attempt[PTK]] == Some(Entry(i, Rsn.HwKey(0, e.agreed.ptk, false)))
            && t'.hw[st.attempt[e.agreed.m3.gtkId]] == Some(GroupEntry(i, e.agreed.m3.gtkId, e.agreed.m3.gtk))
            && Elems(LinkSlots(st)) <= t'.free && Agree(t, t', Held(st))
  {
    ElemsAt(st.attempt);
    ReleaseAllAt(ProgramNew(t, i, st.attempt, e.agreed), LinkSlots(st));
    hide LinkOk, ReleaseAll, Elems, Rsn.NewCrypto;
  }

  /** Rotation: in every run a new group message past its packet number puts its key
      into the hardware slot of its ID, and the connection keeps its slots. */
  lemma RotationReachesHardware(count: nat, stations: nat, ws: seq<World>, es: seq<Event>, n: nat,
                                f: Rsn.KeyFrame, m: Rsn.GroupMessage1)
    requires IsRun(count, stations, ws, es) && n < |es| && es[n].Traffic? && es[n].event == Rsn.Eapol(f)
    requires es[n].who < |ws[n].stations| && ws[n].stations[es[n].who].link.Some?
    requires var keys := ws[n].stations[es[n].who].link.value.keys;
             && Rsn.ShapeOk(keys) && Rsn.PnOk(keys, f) && f.content == Rsn.Group(Some(m)) && Rsn.NewGroup(keys, m)
    ensures var who, t := es[n].who, ws[n + 1].table;
            && |ws[n + 1].stations| == |ws[n].stations| && ws[n + 1].stations[who].link.Some?
            && var link, link' := ws[n].stations[who].link.value, ws[n + 1].stations[who].link.value;
               && link'.slots == link.slots && link'.keys == Rsn.Step(link.keys, es[n].event)
               && |link.slots| == PER_CONNECTION && InTable(t, link.slots)
               && t.hw[link.slots[m.keyId]] == Some(GroupEntry(who, m.keyId, m.key))
  {
    var who := es[n].who;
    RunInv(count, stations, ws, es, n);
    RunInv(count, stations, ws, es, n + 1);
    assert IsStep(ws[n], es[n], ws[n + 1]);
    assert StationOk(ws[n].table, who, ws[n].stations[who]);
    var keys := ws[n].stations[who].link.value.keys;
    assert Rsn.Inv(keys);
    HardwareMirrorsSoftware(count, stations, ws, es, n + 1, who, m.keyId);
    hide IsRun, WorldInv, Rsn.Inv, Rsn.NewGroup, Written;
    Rsn.NewGroupTakesEffect(keys, f, m);
  }

  /** An attempt gets going exactly when the passphrase is usable and five slots
      are free; otherwise the world is as before. */
  lemma BeginIff(w: World, e: Event)
    requires WorldInv(w) && Enabled(w, e) && e.Begin?
    ensures Sane(w.table, w.stations[e.who])
    ensures var started := e.pskOk && |w.table.free| >= PER_CONNECTION;
            if started then Apply(w, e).stations[e.who].attempt != [] else Apply(w, e) == w
  {
    var st := w.stations[e.who];
    assert StationOk(w.table, e.who, st);
    hide StationOk, Apart, HeldBySome;
    SaneIfOk(w.table, e.who, st);
    TakeIsLowest(w.table, PER_CONNECTION);
    TakeThenRelease(w.table, PER_CONNECTION);
    hide Take, ReleaseAll, WorldInv, Elems, Distinct;
    assert w.stations[e.who := st] == w.stations;
  }

  /** What other stations do, or traffic on the own connection, does not move
      this station's slots. */
  predicate Bystander(e: Event, who: nat) { e.who != who || e.Traffic? }

  lemma {:induction false} SlotsStay(count: nat, stations: nat, ws: seq<World>, es: seq<Event>,
                                     who: nat, i: nat, j: nat)
    requires IsRun(count, stations, ws, es) && i <= j < |ws| && who < stations
    requires forall k :: i <= k < j ==> Bystander(es[k], who)
    ensures |ws[i].stations| == |ws[j].stations| == stations
    ensures ws[j].stations[who].attempt == ws[i].stations[who].attempt
    ensures LinkSlots(ws[j].stations[who]) == LinkSlots(ws[i].stations[who])
    decreases j
  {
    hide WorldInv, IsStep;
    RunInv(count, stations, ws, es, i);
    RunInv(count, stations, ws, es, j);
    if i < j {
      SlotsStay(count, stations, ws, es, who, i, j - 1);
      assert IsStep(ws[j - 1], es[j - 1], ws[j]);
      BystanderStep(ws[j - 1], es[j - 1], ws[j], who);
    }
  }

  lemma BystanderStep(w: World, e: Event, w': World, who: nat)
    requires IsStep(w, e, w') && Bystander(e, who) && who < |w.stations| && |w'.stations| == |w.stations|
    ensures w'.stations[who].attempt == w.stations[who].attempt
    ensures LinkSlots(w'.stations[who]) == LinkSlots(w.stations[who])
  {
    hide Written, Rsn.Step, Take, ReleaseAll, ProgramNew;
  }

  /** A failed attempt returns every slot it took, empty, and leaves the station
      with the slots of the connection it had; whatever happened in between. */
  lemma FailedAttemptReturnsSlots(count: nat, stations: nat, ws: seq<World>, es: seq<Event>, i: nat, j: nat)
    requires IsRun(count, stations, ws, es) && i < j < |es|
    requires es[i].Begin? && es[j] == Fail(es[i].who) && es[i].who < stations
    requires forall k :: i < k < j ==> Bystander(es[k], es[i].who)
    ensures |ws[i].stations| == |ws[i + 1].stations| == |ws[j + 1].stations| == stations
    ensures var who := es[i].who;
            && ws[j + 1].stations[who].attempt == ws[i].stations[who].attempt == []
            && LinkSlots(ws[j + 1].stations[who]) == LinkSlots(ws[i].stations[who])
            && |ws[i + 1].stations[who].attempt| == PER_CONNECTION
            && Elems(ws[i + 1].stations[who].attempt) <= ws[j + 1].table.free
            && TableOk(ws[j + 1].table)
  {
    var who := es[i].who;
    RunInv(count, stations, ws, es, i);
    RunInv(count, stations, ws, es, i + 1);
    RunInv(count, stations, ws, es, j + 1);
    SlotsStay(count, stations, ws, es, who, i + 1, j);
    assert IsStep(ws[i], es[i], ws[i + 1]);
    assert IsStep(ws[j], es[j], ws[j + 1]);
    hide IsRun;
    assert StationOk(ws[i + 1].table, who, ws[i + 1].stations[who]);
    assert TableOk(ws[j + 1].table);
    hide WorldInv, TableOk, LinkOk;
    ReleaseAllAt(ws[j].table, ws[j].stations[who].attempt);
    hide Elems, Take, ReleaseAll, StationOk, Sane;
  }

  // --------------------------------------------------------------- shortage

  function HeldUpTo(stations: seq<Station>, n: nat): set<nat>
    requires n <= |stations|
  {
    if n == 0 then {} else HeldUpTo(stations, n - 1) + Held(stations[n - 1])
  }

  ghost predicate WithinQuota(st: Station) { |Held(st)| <= if st.attempt == [] then 5 else 10 }

  lemma HeldCard(t: Table, i: nat, st: Station)
    requires StationOk(t, i, st)
    ensures WithinQuota(st)
  {
    SaneIfOk(t, i, st);
    ElemsCard(st.attempt);
    ElemsCard(LinkSlots(st));
    hide StationOk, Elems;
  }

  lemma {:induction false} HeldUpToCard(stations: seq<Station>, who: nat, n: nat)
    requires who < |stations| && stations[who].attempt == [] && n <= |stations|
    requires forall i :: 0 <= i < |stations| ==> WithinQuota(stations[i])
    ensures |HeldUpTo(stations, n)| <= 10 * n - if who < n then 5 else 0
  {
    hide Held;
    if n != 0 {
      HeldUpToCard(stations, who, n - 1);
      OneMore(stations, n);
      assert WithinQuota(stations[n - 1]);
      hide Held, HeldUpTo;
    }
  }

  lemma OneMore(stations: seq<Station>, n: nat)
    requires 0 < n <= |stations|
    ensures |HeldUpTo(stations, n)| <= |HeldUpTo(stations, n - 1)| + |Held(stations[n - 1])|
  {
    hide Held;
    CardAtMost(HeldUpTo(stations, n), HeldUpTo(stations, n - 1), Held(stations[n - 1]));
  }

  lemma {:induction false} HeldUpToHas(stations: seq<Station>, n: nat, i: nat)
    requires i < n <= |stations|
    ensures Held(stations[i]) <= HeldUpTo(stations, n)
  {
    if i < n - 1 {
      HeldUpToHas(stations, n - 1, i);
    }
  }

  lemma CardAtMost(a: set<nat>, b: set<nat>, c: set<nat>)
    requires a <= b + c
    ensures |a| <= |b| + |c|
  {
    var u := b + c;
    assert u == a + (u - a);
  }

  /** With ten slots per station, and so room for the old and the new connection
      of each, no attempt ever fails for want of key slots. */
  lemma TenPerStationSuffice(count: nat, stations: nat, ws: seq<World>, es: seq<Event>, n: nat)
    requires IsRun(count, stations, ws, es) && n < |es|
    requires es[n].Begin? && es[n].pskOk && es[n].who < |ws[n + 1].stations|
    requires count >= 10 * stations
    ensures ws[n + 1].stations[es[n].who].attempt != []
  {
    RunInv(count, stations, ws, es, n);
    assert IsStep(ws[n], es[n], ws[n + 1]);
    hide IsRun;
    var w := ws[n];
    forall i | 0 <= i < stations
      ensures WithinQuota(w.stations[i])
    {
      assert StationOk(w.table, i, w.stations[i]);
      hide StationOk, Apart, TableOk, HeldBySome, WithinQuota;
      HeldCard(w.table, i, w.stations[i]);
    }
    HeldUpToCard(w.stations, es[n].who, stations);
    var held := HeldUpTo(w.stations, stations);
    assert Buffers(count) <= w.table.free + held by {
      AllAccountedFor(w);
    }
    CardAtMost(Buffers(count), w.table.free, held);
    hide WorldInv, HeldUpTo;
    BeginIff(w, es[n]);
  }

  lemma AllAccountedFor(w: World)
    requires WorldInv(w)
    ensures forall x :: 0 <= x < |w.table.hw| ==> x in w.table.free + HeldUpTo(w.stations, |w.stations|)
  {
    hide Held, StationOk, TableOk, Apart, HeldUpTo;
    forall x | 0 <= x < |w.table.hw| && x !in w.table.free
      ensures x in HeldUpTo(w.stations, |w.stations|)
    {
      assert HeldBySome(w, x);
      var i :| 0 <= i < |w.stations| && x in Held(w.stations[i]);
      HeldUpToHas(w.stations, |w.stations|, i);
    }
  }
}
