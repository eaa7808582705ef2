/** The listening side end to end: fragments from the air, the buffer pool and queue, the worker, the
    APDU assembler and the services (nfc_transport_nrfx.c, apdu_assembler.c, aid_router.c).

    Every buffer the worker takes is answered once and is back in the pool when its turn is over; and
    over every run the responses sent are one for each delivered group and one for each refused one. */
module Pipeline {
  import opened Bytes
  import Nfct
  import Router
  import Stack

  // ---------- one turn of the worker ----------

  /** apdu_work_handler's loop body with the consumer behind it. */
  method WorkerTurn(t: Nfct.Transport, dev: Stack.Device) returns (responses: seq<seq<byte>>)
    requires dev.Valid() && t.handed == None
    modifies t, dev.router, dev.ndef, dev.desfire
    ensures dev.Valid() && t.handed == None
    ensures old(t.fifo) == [] ==> responses == [] && t.Value() == old(t.Value()) && dev.Value() == old(dev.Value())
    ensures old(t.fifo) != [] ==>
            && t.free == [old(t.fifo[0].id)] + old(t.free) && t.fifo == old(t.fifo[1..])
            && t.delivered == old(t.delivered) + [old(t.fifo[0].data)] && t.refused == old(t.refused)
            && (dev.Value(), responses) == Stack.Served(old(dev.Value()), old(t.fifo[0].data), dev.extendedOk, dev.ndef.max)
            && |responses| == 1 && 2 <= |responses[0]| <= 255
    ensures t.Value() == Turned(old(t.Value()), t.cap)
  {
    hide Stack.Served, Stack.Sound;
    t.WorkerTake(true);
    if t.handed.None? { return []; }
    var buf := new Stack.NetBuf(t.handed.value.id, t.handed.value.data);
    responses := dev.OnBuffer(buf);
    if buf.refs == 0 { t.Released(); }
  }

  /** The transport after a turn: one buffer taken, delivered and given back. */
  function Turned(s: Nfct.State, cap: nat): Nfct.State {
    if s.fifo == [] || s.handed.Some? then s
    else Nfct.Step(Nfct.Step(s, Nfct.WorkerTakes(true), cap), Nfct.ConsumerReleases, cap)
  }

  // ---------- whole runs ----------

  datatype Whole = Whole(nfct: Nfct.State, world: Stack.World, sent: seq<seq<byte>>)

  /** Something from the air or a stop, a turn of the worker, or something that happens to the stack. */
  datatype Event = Air(e: Nfct.Event) | Turn | Side(h: Stack.Happening)

  predicate Possible(e: Event) {
    match e
    case Air(n) => !n.WorkerTakes? && !n.ConsumerReleases?
    case Turn => true
    case Side(h) => !h.Buffer? && Stack.KnownHappening(h)
  }

  datatype Setup = Setup(pool: nat, cap: nat, extendedOk: bool, max: nat, maxAids: nat)

  predicate Sound(w: Whole, u: Setup) { Stack.Sound(w.world, u.max) && w.nfct.handed == None }

  function Step(w: Whole, e: Event, u: Setup): Whole
    requires Sound(w, u) && Possible(e)
  {
    match e
    case Air(n) =>
      var s := Nfct.Step(w.nfct, n, u.cap);
      w.(nfct := s, sent := w.sent + if s.refused > w.nfct.refused then [[0x67, 0x00]] else [])
    case Turn =>
      if w.nfct.fifo == [] then w
      else
        var r := Stack.Served(w.world, w.nfct.fifo[0].data, u.extendedOk, u.max);
        Whole(Turned(w.nfct, u.cap), r.0, w.sent + r.1)
    case Side(h) => w.(world := Stack.Happen(w.world, h, u.extendedOk, u.max, u.maxAids).0)
  }

  /** How often 6700 was sent. */
  function Refusals(sent: seq<seq<byte>>): nat {
    if sent == [] then 0 else Refusals(sent[..|sent| - 1]) + if sent[|sent| - 1] == [0x67, 0x00] then 1 else 0
  }

  lemma RefusalsNext(sent: seq<seq<byte>>, rx: seq<byte>)
    ensures Refusals(sent + [rx]) == Refusals(sent) + if rx == [0x67, 0x00] then 1 else 0
  {
    assert (sent + [rx])[..|sent|] == sent;
  }

  /** One response for each delivered group and one for each refused, which is 6700, all of a length that
      can be sent. */
  predicate Answered(w: Whole) {
    |w.sent| == |w.nfct.delivered| + w.nfct.refused && Refusals(w.sent) >= w.nfct.refused
    && forall i :: 0 <= i < |w.sent| ==> 2 <= |w.sent[i]| <= 255
  }

  lemma AirCounts(s: Nfct.State, n: Nfct.Event, cap: nat)
    requires !n.WorkerTakes? && !n.ConsumerReleases? && s.handed == None
    ensures var t := Nfct.Step(s, n, cap);
            t.delivered == s.delivered && s.refused <= t.refused <= s.refused + 1 && t.handed == None
  {
  }

  lemma StepSound(w: Whole, e: Event, u: Setup)
    requires Sound(w, u) && Possible(e) && Answered(w)
    ensures Sound(Step(w, e, u), u) && Answered(Step(w, e, u))
  {
    hide Stack.Served, Stack.Happen, Stack.Sound, Refusals;
    match e
    case Air(n) =>
      hide Nfct.Step;
      AirCounts(w.nfct, n, u.cap);
      RefusalsNext(w.sent, [0x67, 0x00]);
      assert w.sent + [] == w.sent;
    case Turn =>
      if w.nfct.fifo != [] {
        Stack.OneResponse(w.world, w.nfct.fifo[0].data, u.extendedOk, u.max);
        var rx := Stack.Served(w.world, w.nfct.fifo[0].data, u.extendedOk, u.max).1;
        assert rx == [rx[0]];
        RefusalsNext(w.sent, rx[0]);
      }
    case Side(h) => Stack.HappenSound(w.world, h, u.extendedOk, u.max, u.maxAids);
  }

  function After(w: Whole, run: seq<Event>, u: Setup): (r: Whole)
    requires Sound(w, u) && Answered(w) && forall i :: 0 <= i < |run| ==> Possible(run[i])
    ensures Sound(r, u) && Answered(r)
    decreases |run|
  {
    if run == [] then w
    else
      var before := After(w, run[..|run| - 1], u);
      StepSound(before, run[|run| - 1], u);
      Step(before, run[|run| - 1], u)
  }

  /** The transport's share of a run. */
  function Aired(run: seq<Event>, w: Whole, u: Setup): seq<Nfct.Event>
    requires Sound(w, u) && Answered(w) && forall i :: 0 <= i < |run| ==> Possible(run[i])
    decreases |run|
  {
    if run == [] then []
    else
      var n := |run| - 1;
      var rest := Aired(run[..n], w, u);
      match run[n]
      case Air(e) => rest + [e]
      case Turn => if After(w, run[..n], u).nfct.fifo == [] then rest else rest + [Nfct.WorkerTakes(true), Nfct.ConsumerReleases]
      case Side(_) => rest
  }

  function Start(world: Stack.World, u: Setup): (w: Whole)
    requires Stack.Sound(world, u.max)
    ensures Sound(w, u) && Answered(w)
  { Whole(Nfct.Start(u.pool), world, []) }

  lemma NfctSnoc(events: seq<Nfct.Event>, e: Nfct.Event, pool: nat, cap: nat)
    ensures Nfct.After(events + [e], pool, cap) == Nfct.Step(Nfct.After(events, pool, cap), e, cap)
  {
    hide Nfct.Step;
    assert (events + [e])[..|events|] == events;
  }

  /** The transport inside the pipeline runs exactly as it does alone. */
  lemma {:induction false} TransportAlone(world: Stack.World, run: seq<Event>, u: Setup)
    requires Stack.Sound(world, u.max) && forall i :: 0 <= i < |run| ==> Possible(run[i])
    ensures After(Start(world, u), run, u).nfct == Nfct.After(Aired(run, Start(world, u), u), u.pool, u.cap)
    decreases |run|
  {
    hide Stack.Sound, Stack.Served, Stack.Happen, Nfct.Step;
    if run != [] {
      var n := |run| - 1;
      TransportAlone(world, run[..n], u);
      var events := Aired(run[..n], Start(world, u), u);
      match run[n]
      case Air(e) => NfctSnoc(events, e, u.pool, u.cap);
      case Turn =>
        NfctSnoc(events, Nfct.WorkerTakes(true), u.pool, u.cap);
        NfctSnoc(events + [Nfct.WorkerTakes(true)], Nfct.ConsumerReleases, u.pool, u.cap);
        assert events + [Nfct.WorkerTakes(true)] + [Nfct.ConsumerReleases] == events + [Nfct.WorkerTakes(true), Nfct.ConsumerReleases];
      case Side(_) =>
    }
  }

  /** Over every run: as many responses as whole groups delivered or refused, each of 2 to 255 bytes;
      and every buffer of the pool is free, being filled, queued or held by a stopping thread, in one of
      these places, never with the consumer between turns. */
  lemma RunAnswered(world: Stack.World, run: seq<Event>, u: Setup, x: nat)
    requires Stack.Sound(world, u.max) && forall i :: 0 <= i < |run| ==> Possible(run[i])
    ensures var w := After(Start(world, u), run, u);
            var r := Nfct.RefAfter(Aired(run, Start(world, u), u), u.pool, u.cap);
            && |w.sent| == |r.delivered| + r.refused && Refusals(w.sent) >= r.refused
            && (forall i :: 0 <= i < |w.sent| ==> 2 <= |w.sent[i]| <= 255)
            && w.nfct.handed == None && Nfct.Places(w.nfct, x) == if x < u.pool then 1 else 0
  {
    hide Stack.Sound, Nfct.Places, After, Aired;
    TransportAlone(world, run, u);
    var events := Aired(run, Start(world, u), u);
    Nfct.Refines(events, u.pool, u.cap);
    Nfct.Partition(events, u.pool, u.cap, x);
  }
}
