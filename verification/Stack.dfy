/** The listening stack: the APDU assembler in front of the router in front of the services
    (apdu_assembler.c, aid_router.c, nfc_stack.c), with the NDEF and DESFire services behind it. */
module Stack {
  import opened Bytes
  import opened Apdu
  import opened Router
  import Ndef
  import DesfireCard

  const NdefSvc := Service(1, true, true, true, true)
  const DesfireSvc := Service(2, true, true, true, true)

  datatype World = World(router: State, ndef: Ndef.Card, desfire: DesfireCard.Card)

  predicate Known(svc: Service) { svc == NdefSvc || svc == DesfireSvc }

  /** What every operation keeps. */
  predicate Sound(w: World, max: nat) {
    && Ndef.Shaped(w.ndef.model, max) && DesfireCard.Sound(w.desfire)
    && (forall i :: 0 <= i < |w.router.table| ==> Known(w.router.table[i].svc))
    && (w.router.active.Some? ==> Known(w.router.active.value))
  }

  /** What a call of the router does: the world after it and the responses sent. */
  function Perform(w: World, call: Call, max: nat): (World, seq<seq<byte>>)
    requires Sound(w, max)
  {
    match call
    case Answered(sw) => (w, [sw])
    case Selected(svc, _) =>
      if svc == NdefSvc then (w.(ndef := Ndef.OnSelect(w.ndef).card), [Ndef.OnSelect(w.ndef).rx])
      else (w.(desfire := DesfireCard.OnSelect(w.desfire).card), [DesfireCard.OnSelect(w.desfire).rx])
    case Delivered(svc, c) =>
      if svc == NdefSvc then (w.(ndef := Ndef.OnApdu(w.ndef, c).card), [Ndef.OnApdu(w.ndef, c).rx])
      else (w.(desfire := DesfireCard.OnApdu(w.desfire, c).card), [DesfireCard.OnApdu(w.desfire, c).rx])
    case Deselected(svc) => (Left(w, svc), [])
    case FieldLost(svc) => (Left(w, svc), [])
  }

  function Left(w: World, svc: Service): World {
    if svc == NdefSvc then w.(ndef := Ndef.OnSelect(w.ndef).card)
    else w.(desfire := DesfireCard.SessionReset(w.desfire))
  }

  lemma PerformSound(w: World, call: Call, max: nat)
    requires Sound(w, max)
    ensures var r := Perform(w, call, max);
            && Sound(r.0, max) && r.0.router == w.router
            && |r.1| == (if call.Answered? || call.Selected? || call.Delivered? then 1 else 0)
            && (forall i :: 0 <= i < |r.1| && !call.Answered? ==> 2 <= |r.1[i]| <= 255)
            && (call.Answered? ==> r.1 == [call.sw])
  {
    hide Ndef.OnApdu, DesfireCard.OnApdu;
    if call.Delivered? {
      Ndef.Answered(w.ndef, call.apdu, max);
      DesfireCard.Answered(w.desfire, call.apdu);
    }
  }

  function PerformAll(w: World, calls: seq<Call>, max: nat): (World, seq<seq<byte>>)
    requires Sound(w, max)
    decreases |calls|
  {
    if calls == [] then (w, [])
    else
      PerformSound(w, calls[0], max);
      var first := Perform(w, calls[0], max);
      var rest := PerformAll(first.0, calls[1..], max);
      (rest.0, first.1 + rest.1)
  }

  /** A buffer arriving from the transport. */
  function Served(w: World, raw: seq<byte>, extendedOk: bool, max: nat): (World, seq<seq<byte>>)
    requires Sound(w, max)
  {
    var p := Parse(raw, extendedOk);
    if !p.Ok? then (w, [[0x67, 0x00]])
    else
      var d := Dispatch(w.router, p.apdu);
      DispatchSound(w, p.apdu, max);
      PerformAll(w.(router := d.0), d.1, max)
  }

  lemma DispatchSound(w: World, c: Command, max: nat)
    requires Sound(w, max)
    ensures Sound(w.(router := Dispatch(w.router, c).0), max)
  {
    FoundKnown(w.router.table, c.data);
  }

  lemma {:induction false} FoundKnown(table: seq<Entry>, aid: seq<byte>)
    requires forall i :: 0 <= i < |table| ==> Known(table[i].svc)
    ensures Find(table, aid).Some? ==> Known(Find(table, aid).value)
    decreases |table|
  {
    if table != [] { FoundKnown(table[1..], aid); }
  }

  predicate ShortAnswers(calls: seq<Call>) {
    forall i :: 0 <= i < |calls| && calls[i].Answered? ==> |calls[i].sw| == 2
  }

  lemma {:induction false} PerformAllAnswers(w: World, calls: seq<Call>, max: nat)
    requires Sound(w, max) && ShortAnswers(calls)
    ensures var r := PerformAll(w, calls, max);
            && Sound(r.0, max) && r.0.router == w.router && |r.1| == Answers(calls)
            && forall i :: 0 <= i < |r.1| ==> 2 <= |r.1[i]| <= 255
    decreases |calls|
  {
    hide Perform, Sound;
    if calls != [] {
      PerformSound(w, calls[0], max);
      assert forall i :: 0 <= i < |calls[1..]| ==> calls[1..][i] == calls[i + 1];
      PerformAllAnswers(Perform(w, calls[0], max).0, calls[1..], max);
    }
  }

  /** Every buffer, whatever it holds and whatever state the stack is in, gets exactly one response
      of 2 to 255 bytes. */
  lemma OneResponse(w: World, raw: seq<byte>, extendedOk: bool, max: nat)
    requires Sound(w, max)
    ensures var r := Served(w, raw, extendedOk, max);
            && Sound(r.0, max) && |r.1| == 1 && 2 <= |r.1[0]| <= 255
            && (!Parse(raw, extendedOk).Ok? ==> r == (w, [[0x67, 0x00]]))
  {
    hide PerformAll;
    var p := Parse(raw, extendedOk);
    if p.Ok? {
      var c := p.apdu;
      DispatchSound(w, c, max);
      FoundKnown(w.router.table, c.data);
      Router.OneAnswer(w.router, c);
      PerformAllAnswers(w.(router := Dispatch(w.router, c).0), Dispatch(w.router, c).1, max);
    }
  }

  // ---------- whole runs ----------

  /** What can happen to the stack from outside. */
  datatype Happening = Buffer(raw: seq<byte>) | FieldOff | Registers(aid: seq<byte>, svc: Service) | Clears

  predicate KnownHappening(h: Happening) { h.Registers? ==> Known(h.svc) }

  function Happen(w: World, h: Happening, extendedOk: bool, max: nat, maxAids: nat): (World, seq<seq<byte>>)
    requires Sound(w, max) && KnownHappening(h)
  {
    match h
    case Buffer(raw) => Served(w, raw, extendedOk, max)
    case FieldOff =>
      var d := Router.FieldOff(w.router);
      PerformAll(w.(router := d.0), d.1, max)
    case Registers(aid, svc) => (w.(router := Router.Step(w.router, Register(aid, svc), maxAids).0), [])
    case Clears => (w.(router := Router.Step(w.router, Clear, maxAids).0), [])
  }

  lemma HappenSound(w: World, h: Happening, extendedOk: bool, max: nat, maxAids: nat)
    requires Sound(w, max) && KnownHappening(h)
    ensures var r := Happen(w, h, extendedOk, max, maxAids);
            && Sound(r.0, max) && |r.1| == (if h.Buffer? then 1 else 0)
            && (forall i :: 0 <= i < |r.1| ==> 2 <= |r.1[i]| <= 255)
  {
    hide Served, PerformAll;
    if h.Buffer? {
      OneResponse(w, h.raw, extendedOk, max);
    } else if h.FieldOff? {
      var d := Router.FieldOff(w.router);
      PerformAllAnswers(w.(router := d.0), d.1, max);
      if d.1 != [] { assert d.1[1..] == []; }
    }
  }

  /** All responses of a run, in order. */
  function Responses(w: World, run: seq<Happening>, extendedOk: bool, max: nat, maxAids: nat): seq<seq<byte>>
    requires Sound(w, max) && forall i :: 0 <= i < |run| ==> KnownHappening(run[i])
    decreases |run|
  {
    if run == [] then []
    else
      HappenSound(w, run[0], extendedOk, max, maxAids);
      var r := Happen(w, run[0], extendedOk, max, maxAids);
      r.1 + Responses(r.0, run[1..], extendedOk, max, maxAids)
  }

  function Buffers(run: seq<Happening>): nat {
    if run == [] then 0 else (if run[0].Buffer? then 1 else 0) + Buffers(run[1..])
  }

  /** Over every run there are exactly as many responses as buffers, each of 2 to 255 bytes. */
  lemma {:induction false} RunAnswered(w: World, run: seq<Happening>, extendedOk: bool, max: nat, maxAids: nat)
    requires Sound(w, max) && forall i :: 0 <= i < |run| ==> KnownHappening(run[i])
    ensures var rs := Responses(w, run, extendedOk, max, maxAids);
            |rs| == Buffers(run) && forall i :: 0 <= i < |rs| ==> 2 <= |rs[i]| <= 255
    decreases |run|
  {
    hide Happen, Sound;
    if run != [] {
      HappenSound(w, run[0], extendedOk, max, maxAids);
      RunAnswered(Happen(w, run[0], extendedOk, max, maxAids).0, run[1..], extendedOk, max, maxAids);
    }
  }

  /** A command for the active NDEF service reaches it and nothing else. */
  lemma ToNdef(w: World, c: Command, extendedOk: bool, max: nat)
    requires Sound(w, max) && Expressible(c, extendedOk) && !SelectByAid(c) && w.router.active == Some(NdefSvc)
    ensures Served(w, Encoded(c), extendedOk, max) ==
            (w.(ndef := Ndef.OnApdu(w.ndef, c).card), [Ndef.OnApdu(w.ndef, c).rx])
  {
    hide Parse, Encoded, Expressible, Sound, Ndef.OnApdu;
    ParseEncoded(c, extendedOk);
    One(w, Delivered(NdefSvc, c), max);
  }

  lemma ToDesfire(w: World, c: Command, extendedOk: bool, max: nat)
    requires Sound(w, max) && Expressible(c, extendedOk) && !SelectByAid(c) && w.router.active == Some(DesfireSvc)
    ensures DesfireCard.Sound(w.desfire)
    ensures Served(w, Encoded(c), extendedOk, max) ==
            (w.(desfire := DesfireCard.OnApdu(w.desfire, c).card), [DesfireCard.OnApdu(w.desfire, c).rx])
  {
    hide Parse, Encoded, Expressible, DesfireCard.OnApdu;
    ParseEncoded(c, extendedOk);
    One(w, Delivered(DesfireSvc, c), max);
  }

  lemma One(w: World, call: Call, max: nat)
    requires Sound(w, max)
    ensures PerformAll(w, [call], max) == Perform(w, call, max)
  {
    hide Perform, Sound;
    PerformSound(w, call, max);
    var r := Perform(w, call, max);
    assert [call][1..] == [] && r.1 + [] == r.1;
  }

  // ---------- the code ----------

  /** A network buffer with its references; the last one gone, it goes back to its pool. */
  class NetBuf {
    const id: nat
    const data: seq<byte>
    var refs: nat

    constructor (number: nat, bytes: seq<byte>)
      ensures id == number && data == bytes && refs == 1
    {
      id, data, refs := number, bytes, 1;
    }

    /** net_buf_unref: nobody may give up a reference that is not there. */
    method Unref()
      requires refs > 0
      modifies this
      ensures refs == old(refs) - 1
    {
      refs := refs - 1;
    }
  }

  class Device {
    const router: AidRouter
    const ndef: Ndef.Listener
    const desfire: DesfireCard.Listener
    const extendedOk: bool
    const initialized: bool

    function Value(): World
      reads router, ndef, desfire
    { World(router.Value(), ndef.Value(), desfire.Value()) }

    predicate Sane()
      reads router, ndef, desfire
    { Sound(Value(), ndef.max) }

    predicate Valid()
      reads router, ndef, desfire
    { initialized && Sane() }

    constructor (r: AidRouter, n: Ndef.Listener, d: DesfireCard.Listener, extended: bool, ready: bool)
      ensures router == r && ndef == n && desfire == d && extendedOk == extended && initialized == ready
    {
      router, ndef, desfire, extendedOk, initialized := r, n, d, extended, ready;
    }

    method PerformCall(call: Call) returns (responses: seq<seq<byte>>)
      requires Sane()
      modifies ndef, desfire
      ensures (Value(), responses) == Perform(old(Value()), call, ndef.max)
      ensures Sane()
    {
      hide Ndef.OnApdu, DesfireCard.OnApdu;
      PerformSound(Value(), call, ndef.max);
      responses := [];
      var rx;
      match call
      case Answered(sw) => responses := [sw];
      case Selected(svc, _) =>
        if svc == NdefSvc { rx := ndef.Select(); responses := [rx]; }
        else { desfire.Reset(); responses := [[0x90, 0x00]]; }
      case Delivered(svc, c) =>
        if svc == NdefSvc { rx := ndef.Handle(c); } else { rx := desfire.Handle(c); }
        responses := [rx];
      case Deselected(svc) => if svc == NdefSvc { rx := ndef.Select(); } else { desfire.Reset(); }
      case FieldLost(svc) => if svc == NdefSvc { rx := ndef.Select(); } else { desfire.Reset(); }
    }

    /** aid_router_dispatch with the callbacks it makes. */
    method Route(c: Command) returns (responses: seq<seq<byte>>)
      requires Sane()
      modifies router, ndef, desfire
      ensures Sane()
      ensures Sound(old(Value()).(router := Dispatch(old(Value()).router, c).0), ndef.max)
      ensures (Value(), responses) ==
              PerformAll(old(Value()).(router := Dispatch(old(Value()).router, c).0), Dispatch(old(Value()).router, c).1, ndef.max)
    {
      hide Perform, Sound;
      DispatchSound(Value(), c, ndef.max);
      var calls := router.OnApdu(c);
      ghost var start := Value();
      responses := [];
      ghost var all := PerformAll(start, calls, ndef.max);
      assert calls[0..] == calls && [] + all.1 == all.1;
      for i := 0 to |calls|
        invariant Sane()
        invariant PerformAll(start, calls, ndef.max) ==
          var rest := PerformAll(Value(), calls[i..], ndef.max);
          (rest.0, responses + rest.1)
      {
        assert calls[i..][0] == calls[i] && calls[i..][1..] == calls[i + 1..];
        var r := PerformCall(calls[i]);
        ghost var rest := PerformAll(Value(), calls[i + 1..], ndef.max);
        assert responses + (r + rest.1) == (responses + r) + rest.1;
        responses := responses + r;
      }
      assert responses + [] == responses;
    }

    /** apdu_assembler_on_apdu_handler.  On each of its three ways out it gives up its reference to the
        buffer, once. */
    method OnBuffer(buf: NetBuf) returns (responses: seq<seq<byte>>)
      requires Sane() && buf.refs == 1
      modifies router, ndef, desfire, buf
      ensures Sane() && buf.refs == 0
      ensures initialized ==>
              && (Value(), responses) == Served(old(Value()), buf.data, extendedOk, ndef.max)
              && |responses| == 1 && 2 <= |responses[0]| <= 255
      ensures !initialized ==> responses == [] && Value() == old(Value())
    {
      hide Parse, Sound, PerformAll, Dispatch;
      if !initialized {
        buf.Unref();
        return [];
      }
      OneResponse(Value(), buf.data, extendedOk, ndef.max);
      var p := Parse(buf.data, extendedOk);
      if !p.Ok? {
        responses := [[0x67, 0x00]];
        buf.Unref();
        return;
      }
      responses := Route(p.apdu);
      buf.Unref();
    }

    /** apdu_assembler_on_field_off_handler: the active service loses its session, and no service is
        active. */
    method OnFieldOff()
      requires Sane()
      modifies router, ndef, desfire
      ensures Sane() && router.active == None
      ensures Value() == Happen(old(Value()), FieldOff, extendedOk, ndef.max, router.max).0
      ensures ndef.model == old(ndef.model) && desfire.model == old(desfire.model)
    {
      ghost var w := Value();
      HappenSound(w, FieldOff, extendedOk, ndef.max, router.max);
      var calls := router.OnFieldOff();
      if calls != [] {
        assert calls == [calls[0]];
        One(Value(), calls[0], ndef.max);
        var _ := PerformCall(calls[0]);
      }
    }
  }

  /** What field loss does to a session, said without the router: the service that was active forgets
      its selection and whatever it had pending, the other is untouched. */
  lemma FieldOffForgets(w: World, extendedOk: bool, max: nat, maxAids: nat)
    requires Sound(w, max)
    ensures var v := Happen(w, FieldOff, extendedOk, max, maxAids).0;
            && v.router == w.router.(active := None)
            && v.ndef == (if w.router.active == Some(NdefSvc) then w.ndef.(sel := Ndef.NoFile) else w.ndef)
            && v.desfire == (if w.router.active == Some(DesfireSvc) then DesfireCard.SessionReset(w.desfire) else w.desfire)
  {
    var d := Router.FieldOff(w.router);
    if d.1 != [] {
      assert d.1 == [d.1[0]];
      One(w.(router := d.0), d.1[0], max);
    }
  }
}
