/** The whole system as a state machine: broadcasters, a lossy, reordering and duplicating air, and
    the tasks of one observer, interleaved step by step. */
module SystemSpec {
  import opened Bytes
  import opened Crypto
  import opened Wire
  import opened BroadcasterSpec
  import opened AuthorizeSpec
  import opened ProcessorSpec
  import opened ReconstructorSpec

  datatype Params = Params(prims: Primitives, replaceAfter: nat, ratio: nat)

  /** A frame some sender has put on the air. */
  datatype Aired = Aired(address: Address, frame: seq<byte>)

  /** A session some sender has opened. */
  datatype Opened = Opened(address: Address, session: Session)

  /** A payload some sender has encrypted, into what, and with which key. */
  datatype Sealed = Sealed(address: Address, pdu: DataPdu, clear: seq<byte>, key: Key)

  /** History only: all sessions opened, all payloads encrypted, and the senders of whose sessions with low
      byte zero a fragment has been left in an entry that counts as free. No step reads it. */
  datatype World = World(sessions: set<Opened>, sealed: set<Sealed>, strays: set<Pair>)

  datatype System = System(
    world: World,
    senders: map<Address, Sender>,
    air: set<Aired>,
    slots: seq<AuthSlot>,
    queue: seq<Received>,
    table: Table,
    fragments: seq<Element>,
    km: seq<Entry>,
    trace: seq<Tagged>)

  datatype Move =
    | Start(address: Address, session: Session)
    | Send(address: Address, input: Input)
    | Hear(address: Address, frame: seq<byte>, timestamp: int)
    | AuthorizeBatch(index: nat)
    | ProcessPdu(at: nat)
    | ProcessFragment(at: nat)
    | DrainDeferred(at: nat)

  function Boot(slotCount: nat, tableSize: nat, cacheSize: nat, kmSize: nat): System {
    System(World({}, {}, {}), map[], {}, seq(slotCount, _ => FRESH_SLOT), [], FreshTable(tableSize, cacheSize), [],
           seq(kmSize, _ => BLANK), [])
  }

  function PairFor(address: Address, session: Session): Pair {
    Pair(address, Low(session.keyId))
  }

  // ---- Sending ------------------------------------------------------------------------------------

  function Learn(w: World, address: Address, session: Session): World {
    w.(sessions := w.sessions + {Opened(address, session)})
  }

  function Record(w: World, address: Address, session: Session, input: Input, out: Output): World {
    if out.DataOut? then w.(sealed := w.sealed + {Sealed(address, out.pdu, input.clear, session.key)}) else w
  }

  function Broadcast(air: set<Aired>, address: Address, out: Output): set<Aired> {
    air + set frame | frame in OnAir(out) :: Aired(address, frame)
  }

  /** Powering up, or again after a reset. */
  function StartSender(p: Params, s: System, address: Address, session: Session): System {
    s.(senders := s.senders[address := FreshSender(session, p.ratio)], world := Learn(s.world, address, session))
  }

  function SendNext(p: Params, s: System, address: Address, input: Input): System
    requires p.replaceAfter > 0 && address in s.senders
  {
    var (sender, out) := OnTimer(p.prims, s.senders[address], p.replaceAfter, p.ratio, input);
    var session := sender.broadcaster.session;
    s.(senders := s.senders[address := sender],
       air := Broadcast(s.air, address, out),
       world := Record(Learn(s.world, address, session), address, session, input, out))
  }

  // ---- Observing ----------------------------------------------------------------------------------

  /** Forwarding what was authorised; what does not fit the processor's queue is lost. */
  function Forward(queue: seq<Received>, address: Address, pdus: seq<ScanPdu>): seq<Received>
    decreases |pdus|
  {
    if pdus == [] then queue else Forward(Enqueue(queue, Received(address, pdus[0].frame)), address, pdus[1..])
  }

  function AuthorizeNext(s: System, index: nat): System
    requires index < |s.slots|
  {
    var (slot, pdus) := AuthoriseSlot(s.slots[index]);
    s.(slots := s.slots[index := slot], queue := Forward(s.queue, slot.address, pdus))
  }

  /** Passing on the fragments whose key is wanted. */
  function Request(km: seq<Entry>, fragments: seq<Element>, events: seq<Tagged>): seq<Element>
    decreases |events|
  {
    if events == [] then fragments
    else
      var e := events[0];
      var queued := if e.event.FragmentWanted? then QueueFragment(km, fragments, ElementOf(e.address, e.event.fragment))
                    else fragments;
      Request(km, queued, events[1..])
  }

  function ProcessNext(s: System, at: nat): System
    requires AllWellFormed(s.table.arr) && (s.queue != [] ==> WellSized(s.queue[0].frame))
  {
    if s.queue == [] then s
    else
      var r := s.queue[0];
      var (table, events) := FrameFor(s.table, r.address, Read(r.frame), at);
      s.(queue := s.queue[1..], table := table, fragments := Request(s.km, s.fragments, events),
         trace := s.trace + events)
  }

  /** Whose fragment a step leaves behind in an entry that counts as free
      (`ReconstructorTheorems.StepLeavesStrayIff`). */
  function LeftBehind(prims: Primitives, km: seq<Entry>, e: Element): set<Pair> {
    if Low(e.keyId) == 0 && OpenFragment(prims, e.masked, e.seed, e.tag).Some? && FirstFree(km) < |km| then {PairOf(e)} else {}
  }

  /** One fragment, and the key-complete callback if it was the one missing. */
  function ReconstructNext(p: Params, s: System, at: nat): System
    requires AllWellFormed(s.table.arr)
  {
    if s.fragments == [] then s
    else
      var e := s.fragments[0];
      var (km, fired) := Consume(p.prims, s.km, e);
      s.(fragments := s.fragments[1..], km := km,
         world := s.world.(strays := s.world.strays + LeftBehind(p.prims, s.km, e)),
         table := if fired.Some? then StoreKeyFor(s.table, e.address, Low(e.keyId), fired.value, at) else s.table)
  }

  function DrainNext(s: System, at: nat): System
    requires AllWellFormed(s.table.arr)
  {
    var (arr, events) := DrainAll(s.table.arr, at);
    s.(table := s.table.(arr := arr), trace := s.trace + events)
  }

  // ---- Runs ---------------------------------------------------------------------------------------

  /** What may happen next. Sessions may have any ids; the air carries nothing but what senders have
      put on it, but may lose, repeat and reorder it. */
  predicate Enabled(p: Params, s: System, move: Move) {
    && p.replaceAfter > 0
    && match move
       case Start(address, _) => address != ZERO_ADDRESS
       case Send(address, _) => address in s.senders
       case Hear(address, frame, _) => Aired(address, frame) in s.air
       case AuthorizeBatch(index) => index < |s.slots|
       case ProcessPdu(_) => s.queue != [] ==> WellSized(s.queue[0].frame)
       case _ => true
  }

  function Next(p: Params, s: System, move: Move): (t: System)
    requires AllWellFormed(s.table.arr) && Enabled(p, s, move)
    ensures AllWellFormed(t.table.arr)
  {
    match move
    case Start(address, session) => StartSender(p, s, address, session)
    case Send(address, input) => SendNext(p, s, address, input)
    case Hear(address, frame, timestamp) => s.(slots := Scan(s.slots, timestamp, frame, address).0)
    case AuthorizeBatch(index) => AuthorizeNext(s, index)
    case ProcessPdu(at) => ProcessNext(s, at)
    case ProcessFragment(at) => ReconstructNext(p, s, at)
    case DrainDeferred(at) => DrainNext(s, at)
  }

  predicate Possible(p: Params, s: System, moves: seq<Move>)
    requires AllWellFormed(s.table.arr)
    decreases |moves|
  {
    moves == [] || (Enabled(p, s, moves[0]) && Possible(p, Next(p, s, moves[0]), moves[1..]))
  }

  function Play(p: Params, s: System, moves: seq<Move>): (t: System)
    requires AllWellFormed(s.table.arr) && Possible(p, s, moves)
    ensures AllWellFormed(t.table.arr)
    decreases |moves|
  {
    if moves == [] then s else Play(p, Next(p, s, moves[0]), moves[1..])
  }
}
