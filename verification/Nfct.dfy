/** Fragment assembly on the NFCT transport (nfc_transport_nrfx.c, nfc_apdu_asm.c): buffers from a
    small pool, an interrupt that fills them, a queue, and a worker that hands them over.

    The code decides fragment by fragment and drops a group early.  The reference machine below
    knows neither buffers nor early drops: it collects whole groups and judges each at its end.
    The two agree in every interleaving of fragments, field events, stops and worker turns, and
    no buffer is ever lost or held twice. */
module Nfct {
  import opened Bytes

  // ---------- the code's state ----------

  datatype Buf = Buf(id: nat, data: seq<byte>)

  datatype Drop = Keep | NoBuffer | Oversize

  /** The transport's static variables; handed is the buffer the consumer has, limbo one that a
      stopping thread has taken but not yet released, delivered what was handed over so far and
      refused the number of 6700 answers sent. */
  datatype State = State(free: seq<nat>, cur: Option<Buf>, drop: Drop, fifo: seq<Buf>, handed: Option<Buf>,
                         limbo: Option<nat>, delivered: seq<seq<byte>>, refused: nat)

  datatype Event =
    | Fragment(data: seq<byte>, more: bool)
    | Field                       // the field appears or goes
    | StopTakes                   // nfc_transport_stop: the buffer leaves s_cur_buf
    | StopReleases                // and is given back
    | StopPurges                  // the queue is emptied
    | WorkerTakes(consumer: bool) // the worker takes one buffer off the queue
    | ConsumerReleases            // and the consumer gives it back

  function Release(s: State, b: Option<Buf>): State { if b.Some? then s.(free := [b.value.id] + s.free) else s }

  /** The allocation at the start of nfc_hal_on_fragment. */
  function Begin(s: State): State {
    if s.cur.Some? || s.drop != Keep then s
    else if s.free == [] then s.(drop := NoBuffer)
    else s.(cur := Some(Buf(s.free[0], [])), free := s.free[1..])
  }

  /** Its copy, or the drop of a group that no longer fits. */
  function Copy(s: State, data: seq<byte>, cap: nat): State {
    if s.drop != Keep || s.cur.None? then s
    else if |s.cur.value.data| + |data| <= cap then s.(cur := Some(s.cur.value.(data := s.cur.value.data + data)))
    else Release(s, s.cur).(cur := None, drop := Oversize)
  }

  /** Its end-of-group part. */
  function End(s: State): State {
    var t := s.(drop := Keep);
    if s.drop == Oversize then t.(refused := s.refused + 1)
    else if s.drop == Keep && s.cur.Some? then t.(cur := None, fifo := s.fifo + [s.cur.value])
    else t
  }

  function OnFragment(s: State, data: seq<byte>, more: bool, cap: nat): State {
    var t := Copy(Begin(s), data, cap);
    if more then t else End(t)
  }

  function Step(s: State, e: Event, cap: nat): State {
    match e
    case Fragment(data, more) => OnFragment(s, data, more, cap)
    case Field => Release(s, s.cur).(cur := None, drop := Keep)
    case StopTakes =>
      if s.limbo.Some? then s
      else s.(limbo := if s.cur.Some? then Some(s.cur.value.id) else None, cur := None, drop := Keep)
    case StopReleases => if s.limbo.Some? then s.(free := [s.limbo.value] + s.free, limbo := None) else s
    case StopPurges => s.(free := GivenBack(s.fifo, s.free), fifo := [])
    case WorkerTakes(consumer) =>
      if s.fifo == [] || s.handed.Some? then s
      else if consumer then s.(fifo := s.fifo[1..], handed := Some(s.fifo[0]), delivered := s.delivered + [s.fifo[0].data])
      else s.(fifo := s.fifo[1..], free := [s.fifo[0].id] + s.free)
    case ConsumerReleases => Release(s, s.handed).(handed := None)
  }

  /** The free list after releasing these buffers in order. */
  function GivenBack(bufs: seq<Buf>, free: seq<nat>): seq<nat>
    decreases |bufs|
  { if bufs == [] then free else GivenBack(bufs[1..], [bufs[0].id] + free) }

  function Ids(bufs: seq<Buf>): (ids: seq<nat>)
    ensures |ids| == |bufs|
  { seq(|bufs|, i requires 0 <= i < |bufs| => bufs[i].id) }

  function Start(pool: nat): State { State(Pool(pool), None, Keep, [], None, None, [], 0) }

  function After(events: seq<Event>, pool: nat, cap: nat): State {
    if events == [] then Start(pool)
    else Step(After(events[..|events| - 1], pool, cap), events[|events| - 1], cap)
  }

  // ---------- every buffer is in exactly one place ----------

  function Among(ids: seq<nat>, x: nat): nat { if ids == [] then 0 else (if ids[0] == x then 1 else 0) + Among(ids[1..], x) }

  function Is(b: Option<Buf>, x: nat): nat { if b.Some? && b.value.id == x then 1 else 0 }

  /** In how many places buffer x is. */
  function Places(s: State, x: nat): nat {
    Among(s.free, x) + Is(s.cur, x) + Among(Ids(s.fifo), x) + Is(s.handed, x) + (if s.limbo == Some(x) then 1 else 0)
  }

  lemma {:induction false} AmongConcat(a: seq<nat>, b: seq<nat>, x: nat)
    ensures Among(a + b, x) == Among(a, x) + Among(b, x)
    decreases |a|
  {
    if a == [] { assert a + b == b; }
    else {
      assert (a + b)[0] == a[0] && (a + b)[1..] == a[1..] + b;
      AmongConcat(a[1..], b, x);
    }
  }

  lemma AmongOne(id: nat, x: nat)
    ensures Among([id], x) == if id == x then 1 else 0
  {
  }

  /** A buffer given back counts once more among the free ones. */
  lemma AmongFront(id: nat, ids: seq<nat>, x: nat)
    ensures Among([id] + ids, x) == Among(ids, x) + if id == x then 1 else 0
  {
    AmongConcat([id], ids, x);
    AmongOne(id, x);
  }

  lemma AmongBack(bufs: seq<Buf>, b: Buf, x: nat)
    ensures Among(Ids(bufs + [b]), x) == Among(Ids(bufs), x) + if b.id == x then 1 else 0
  {
    assert Ids(bufs + [b]) == Ids(bufs) + [b.id];
    AmongConcat(Ids(bufs), [b.id], x);
    AmongOne(b.id, x);
  }

  lemma IdsFirst(bufs: seq<Buf>)
    requires bufs != []
    ensures Ids(bufs) == [bufs[0].id] + Ids(bufs[1..])
  {
  }

  lemma BeginKeeps(s: State, x: nat)
    ensures Places(Begin(s), x) == Places(s, x)
  {
    hide Among, Ids;
    if s.free != [] {
      assert s.free == [s.free[0]] + s.free[1..];
      AmongFront(s.free[0], s.free[1..], x);
    }
  }

  lemma CopyKeeps(s: State, data: seq<byte>, cap: nat, x: nat)
    ensures Places(Copy(s, data, cap), x) == Places(s, x)
  {
    hide Among, Ids;
    if s.cur.Some? { AmongFront(s.cur.value.id, s.free, x); }
  }

  lemma EndKeeps(s: State, x: nat)
    ensures Places(End(s), x) == Places(s, x)
  {
    hide Among, Ids;
    if s.cur.Some? { AmongBack(s.fifo, s.cur.value, x); }
  }

  lemma StepKeeps(s: State, e: Event, cap: nat, x: nat)
    ensures Places(Step(s, e, cap), x) == Places(s, x)
  {
    hide Among, Ids, Begin, Copy, End;
    if s.cur.Some? { AmongFront(s.cur.value.id, s.free, x); }
    if s.handed.Some? { AmongFront(s.handed.value.id, s.free, x); }
    if s.limbo.Some? { AmongFront(s.limbo.value, s.free, x); }
    if e.Fragment? {
      BeginKeeps(s, x);
      CopyKeeps(Begin(s), e.data, cap, x);
      EndKeeps(Copy(Begin(s), e.data, cap), x);
    } else if e.WorkerTakes? && s.fifo != [] {
      IdsFirst(s.fifo);
      AmongFront(s.fifo[0].id, Ids(s.fifo[1..]), x);
      AmongFront(s.fifo[0].id, s.free, x);
    } else if e.StopPurges? {
      GivenBackCounts(s.fifo, s.free, x);
      NoIds(x);
    }
  }

  lemma {:induction false} GivenBackCounts(bufs: seq<Buf>, free: seq<nat>, x: nat)
    ensures Among(GivenBack(bufs, free), x) == Among(Ids(bufs), x) + Among(free, x)
    decreases |bufs|
  {
    if bufs == [] {
      NoIds(x);
    } else {
      hide Among, Ids;
      IdsFirst(bufs);
      AmongFront(bufs[0].id, Ids(bufs[1..]), x);
      AmongFront(bufs[0].id, free, x);
      GivenBackCounts(bufs[1..], [bufs[0].id] + free, x);
    }
  }

  lemma NoIds(x: nat)
    ensures Among(Ids([]), x) == 0
  {
  }

  function Pool(n: nat): (ids: seq<nat>)
    ensures |ids| == n
  { if n == 0 then [] else Pool(n - 1) + [n - 1] }

  lemma {:induction false} PoolOnce(n: nat, x: nat)
    ensures Among(Pool(n), x) == if x < n then 1 else 0
  {
    if n > 0 {
      PoolOnce(n - 1, x);
      AmongConcat(Pool(n - 1), [n - 1], x);
      AmongOne(n - 1, x);
    }
  }

  /** In every run, each buffer of the pool is in exactly one place, and there are no others. */
  lemma {:induction false} Partition(events: seq<Event>, pool: nat, cap: nat, x: nat)
    ensures Places(After(events, pool, cap), x) == if x < pool then 1 else 0
    decreases |events|
  {
    if events == [] {
      PoolOnce(pool, x);
      NoIds(x);
    } else {
      hide Step, Places;
      var n := |events| - 1;
      Partition(events[..n], pool, cap, x);
      StepKeeps(After(events[..n], pool, cap), events[n], cap, x);
    }
  }

  // ---------- the reference ----------

  /** Fragments received since the last group ended, and whether a buffer was to be had when the
      first of them came. */
  datatype Group = Group(data: seq<byte>, hadBuffer: bool)

  datatype Reference = Reference(open: Option<Group>, queue: seq<seq<byte>>, delivered: seq<seq<byte>>, refused: nat)

  /** A whole group is queued if it had a buffer and fits, refused if it had one and does not, and
      passed over in silence otherwise. */
  function Judge(r: Reference, g: Group, cap: nat): Reference {
    if g.hadBuffer && |g.data| <= cap then r.(open := None, queue := r.queue + [g.data])
    else if g.hadBuffer then r.(open := None, refused := r.refused + 1)
    else r.(open := None)
  }

  function RefStep(r: Reference, e: Event, bufferFree: bool, busy: bool, stopping: bool, cap: nat): Reference {
    match e
    case Fragment(data, more) =>
      var g := Joined(r, data, bufferFree);
      if more then r.(open := Some(g)) else Judge(r, g, cap)
    case Field => r.(open := None)
    case StopTakes => if stopping then r else r.(open := None)
    case StopReleases => r
    case StopPurges => r.(queue := [])
    case WorkerTakes(consumer) =>
      if r.queue == [] || busy then r
      else if consumer then r.(queue := r.queue[1..], delivered := r.delivered + [r.queue[0]])
      else r.(queue := r.queue[1..])
    case ConsumerReleases => r
  }

  function Contents(bufs: seq<Buf>): (c: seq<seq<byte>>)
    ensures |c| == |bufs|
  { seq(|bufs|, i requires 0 <= i < |bufs| => bufs[i].data) }

  /** The code's early decisions are those the whole group will call for. */
  predicate Agrees(s: State, r: Reference, cap: nat) {
    Contents(s.fifo) == r.queue && s.delivered == r.delivered && s.refused == r.refused &&
    match r.open
    case None => s.cur.None? && s.drop == Keep
    case Some(g) =>
      if !g.hadBuffer then s.cur.None? && s.drop == NoBuffer
      else if |g.data| <= cap then s.cur.Some? && s.cur.value.data == g.data && s.drop == Keep
      else s.cur.None? && s.drop == Oversize
  }

  /** The group a fragment belongs to. */
  function Joined(r: Reference, data: seq<byte>, bufferFree: bool): Group {
    if r.open.Some? then r.open.value.(data := r.open.value.data + data) else Group(data, bufferFree)
  }

  lemma CopyAgrees(s: State, r: Reference, data: seq<byte>, cap: nat)
    requires Agrees(s, r, cap)
    ensures Agrees(Copy(Begin(s), data, cap), r.(open := Some(Joined(r, data, s.free != []))), cap)
  {
    hide Contents;
    assert [] + data == data;
  }

  lemma EndAgrees(s: State, r: Reference, g: Group, cap: nat)
    requires Agrees(s, r, cap) && r.open == Some(g)
    ensures Agrees(End(s), Judge(r, g, cap), cap)
  {
    if s.cur.Some? { assert Contents(s.fifo + [s.cur.value]) == Contents(s.fifo) + [s.cur.value.data]; }
  }

  lemma FragmentAgrees(s: State, r: Reference, data: seq<byte>, more: bool, cap: nat)
    requires Agrees(s, r, cap)
    ensures Agrees(OnFragment(s, data, more, cap), RefStep(r, Fragment(data, more), s.free != [], s.handed.Some?, s.limbo.Some?, cap), cap)
  {
    hide Begin, Copy, End, Agrees;
    var g := Joined(r, data, s.free != []);
    CopyAgrees(s, r, data, cap);
    if !more { EndAgrees(Copy(Begin(s), data, cap), r.(open := Some(g)), g, cap); }
  }

  lemma StepAgrees(s: State, r: Reference, e: Event, cap: nat)
    requires Agrees(s, r, cap)
    ensures Agrees(Step(s, e, cap), RefStep(r, e, s.free != [], s.handed.Some?, s.limbo.Some?, cap), cap)
  {
    match e
    case Fragment(data, more) => FragmentAgrees(s, r, data, more, cap);
    case WorkerTakes(consumer) =>
      if s.fifo != [] { assert Contents(s.fifo) == [s.fifo[0].data] + Contents(s.fifo[1..]); }
    case StopPurges => assert Contents([]) == [];
    case _ =>
  }

  /** The reference alongside the code: it is told only whether a buffer was free, whether the
      consumer was busy and whether a stop was under way. */
  function RefAfter(events: seq<Event>, pool: nat, cap: nat): Reference {
    if events == [] then Reference(None, [], [], 0)
    else
      var before := events[..|events| - 1];
      var s := After(before, pool, cap);
      RefStep(RefAfter(before, pool, cap), events[|events| - 1], s.free != [], s.handed.Some?, s.limbo.Some?, cap)
  }

  /** In every run the code delivers, queues and refuses exactly what the reference does. */
  lemma {:induction false} Refines(events: seq<Event>, pool: nat, cap: nat)
    ensures Agrees(After(events, pool, cap), RefAfter(events, pool, cap), cap)
    decreases |events|
  {
    hide Step, RefStep, Agrees;
    if events == [] {
      StartAgrees(pool, cap);
    } else {
      var n := |events| - 1;
      Refines(events[..n], pool, cap);
      StepAgrees(After(events[..n], pool, cap), RefAfter(events[..n], pool, cap), events[n], cap);
    }
  }

  lemma StartAgrees(pool: nat, cap: nat)
    ensures Agrees(Start(pool), Reference(None, [], [], 0), cap)
  {
    assert Contents([]) == [];
  }

  // ---------- the fate of one group ----------

  function Concat(frags: seq<seq<byte>>): seq<byte> { if frags == [] then [] else frags[0] + Concat(frags[1..]) }

  /** The fragments of one group, with nothing in between. */
  function Feed(s: State, frags: seq<seq<byte>>, cap: nat): State
    requires frags != []
    decreases |frags|
  {
    if |frags| == 1 then OnFragment(s, frags[0], false, cap)
    else Feed(OnFragment(s, frags[0], true, cap), frags[1..], cap)
  }

  lemma {:induction false} FeedAgrees(s: State, r: Reference, frags: seq<seq<byte>>, cap: nat)
    requires Agrees(s, r, cap) && frags != []
    ensures Agrees(Feed(s, frags, cap), Judge(r, Joined(r, Concat(frags), s.free != []), cap), cap)
    decreases |frags|
  {
    hide OnFragment, Agrees;
    var f := frags[0];
    if |frags| == 1 {
      assert frags[1..] == [] && f + [] == f;
      FragmentAgrees(s, r, f, false, cap);
    } else {
      FragmentAgrees(s, r, f, true, cap);
      var mid := r.(open := Some(Joined(r, f, s.free != [])));
      FeedAgrees(OnFragment(s, f, true, cap), mid, frags[1..], cap);
      if r.open.Some? { assert r.open.value.data + (f + Concat(frags[1..])) == (r.open.value.data + f) + Concat(frags[1..]); }
    }
  }

  /** A group that finds the transport idle and a buffer free is queued as exactly the concatenation
      of its fragments if that fits, and answered 6700 once if not, however it was cut up.  Without a
      buffer it is passed over in silence. */
  lemma GroupFate(s: State, frags: seq<seq<byte>>, cap: nat)
    requires frags != [] && s.cur.None? && s.drop == Keep
    ensures var t, whole := Feed(s, frags, cap), Concat(frags);
            && Contents(t.fifo) == Contents(s.fifo) + (if s.free != [] && |whole| <= cap then [whole] else [])
            && t.refused == s.refused + (if s.free != [] && |whole| > cap then 1 else 0)
            && t.cur.None? && t.drop == Keep && t.delivered == s.delivered
  {
    hide Feed, Contents;
    var r := Reference(None, Contents(s.fifo), s.delivered, s.refused);
    FeedAgrees(s, r, frags, cap);
    assert Contents(s.fifo) + [] == Contents(s.fifo);
  }

  // ---------- a group nobody hears about ----------

  /** n groups of one byte each. */
  function Bytewise(n: nat): seq<Event> { if n == 0 then [] else Bytewise(n - 1) + [Fragment([0], false)] }

  lemma {:induction false} PoolDrains(n: nat, pool: nat, cap: nat)
    requires n <= pool && cap >= 1
    ensures var s := After(Bytewise(n), pool, cap);
            |s.free| == pool - n && |s.fifo| == n && s.cur.None? && s.drop == Keep && s.refused == 0 && s.delivered == []
    decreases n
  {
    if n > 0 {
      PoolDrains(n - 1, pool, cap);
      var run := Bytewise(n);
      assert run[..|run| - 1] == Bytewise(n - 1);
      hide Step;
      ByteQueued(After(Bytewise(n - 1), pool, cap), cap);
    }
  }

  lemma ByteQueued(s: State, cap: nat)
    requires s.free != [] && s.cur.None? && s.drop == Keep && cap >= 1
    ensures var t := Step(s, Fragment([0], false), cap);
            && |t.free| == |s.free| - 1 && |t.fifo| == |s.fifo| + 1 && t.cur.None? && t.drop == Keep
            && t.refused == s.refused && t.delivered == s.delivered
  {
  }

  /** Whatever the pool and the buffers, once every buffer is queued a group too long for any buffer
      gets neither a delivery nor a 6700. */
  lemma LostInSilence(pool: nat, cap: nat, long: seq<byte>)
    requires cap >= 1 && |long| > cap
    ensures var before, after := After(Bytewise(pool), pool, cap), After(Bytewise(pool) + [Fragment(long, false)], pool, cap);
            before.free == [] && after.fifo == before.fifo && after.refused == 0 && after.delivered == []
  {
    PoolDrains(pool, pool, cap);
    var run := Bytewise(pool) + [Fragment(long, false)];
    assert run[..|run| - 1] == Bytewise(pool);
  }

  // ---------- the code ----------

  class Transport {
    var free: seq<nat>
    var cur: Option<Buf>
    var drop: Drop
    var fifo: seq<Buf>
    var handed: Option<Buf>
    var limbo: Option<nat>
    var delivered: seq<seq<byte>>
    var refused: nat
    const cap: nat

    function Value(): State
      reads this
    { State(free, cur, drop, fifo, handed, limbo, delivered, refused) }

    constructor (pool: nat, bufCap: nat)
      ensures Value() == Start(pool) && cap == bufCap
    {
      free, cur, drop, fifo, handed, limbo, delivered, refused := Pool(pool), None, Keep, [], None, None, [], 0;
      cap := bufCap;
    }

    /** nfc_hal_on_fragment. */
    method HalOnFragment(data: seq<byte>, more: bool)
      modifies this
      ensures Value() == Step(old(Value()), Fragment(data, more), cap)
    {
      if cur == None && drop == Keep {
        if free == [] {
          drop := NoBuffer;
        } else {
          cur, free := Some(Buf(free[0], [])), free[1..];
        }
      }
      if drop == Keep && cur.Some? {
        if |cur.value.data| + |data| <= cap {
          cur := Some(cur.value.(data := cur.value.data + data));
        } else {
          free := [cur.value.id] + free;
          cur, drop := None, Oversize;
        }
      }
      if !more {
        match drop {
          case Keep =>
            if cur.Some? {
              fifo := fifo + [cur.value];
              cur := None;
            }
          case Oversize => refused := refused + 1;
          case NoBuffer =>
        }
        drop := Keep;
      }
    }

    /** discard_cur_buf from the field events. */
    method OnField()
      modifies this
      ensures Value() == Step(old(Value()), Field, cap)
    {
      var buf := cur;
      cur, drop := None, Keep;
      if buf.Some? { free := [buf.value.id] + free; }
    }

    /** One turn of apdu_work_handler's loop. */
    method WorkerTake(consumer: bool)
      modifies this
      ensures Value() == Step(old(Value()), WorkerTakes(consumer), cap)
    {
      if fifo == [] || handed.Some? { return; }
      var buf := fifo[0];
      fifo := fifo[1..];
      if consumer {
        handed, delivered := Some(buf), delivered + [buf.data];
      } else {
        free := [buf.id] + free;
      }
    }

    /** The consumer's last reference gone: the buffer goes back to the pool. */
    method Released()
      modifies this
      ensures Value() == Step(old(Value()), ConsumerReleases, cap)
    {
      if handed.Some? { free := [handed.value.id] + free; }
      handed := None;
    }

    /** The purge loop of nfc_transport_stop. */
    method Purge()
      modifies this
      ensures Value() == Step(old(Value()), StopPurges, cap)
    {
      while fifo != []
        invariant Value() == old(Value()).(fifo := fifo, free := free)
        invariant GivenBack(fifo, free) == GivenBack(old(fifo), old(free))
        decreases |fifo|
      {
        var buf := fifo[0];
        fifo := fifo[1..];
        free := [buf.id] + free;
      }
    }
  }
}
