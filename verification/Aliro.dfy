/** The Aliro listener (aliro_listener.c) as a state machine over commands, deferred crypto work and
    resets, in the build that checks against fixed test vectors.

    The answer to a command is computed later, on a work queue.  A reset forgets everything but the
    work already queued, so stale work can run in a new session.  What survives that: access is only
    ever granted after the right AUTH1 and then the right EXCHANGE of the current session.  What does
    not: a session can move past AUTH0 without one, exactly when work was left over at its reset and
    runs before any command; and a command can go without an answer, exactly when it submits work
    that is still queued from before. */
module Aliro {
  import opened Bytes
  import opened Apdu

  datatype Phase = Idle | AwaitAuth0 | AwaitAuth1 | AwaitExchange | Done | Error

  /** The listener's static variables; queued says that the work item is on the queue. */
  datatype State = State(phase: Phase, inflight: bool, sig: seq<byte>, exchange: seq<byte>, exchangeLen: nat, queued: bool)

  const SigLen := 64
  const ExchangeLen := 29

  function Filled(n: nat, b: byte): (s: seq<byte>)
    ensures |s| == n
  { seq(n, i => b) }

  function ExpectedSig(): (s: seq<byte>)
    ensures |s| == SigLen
  { Filled(SigLen, 0x44) }

  function ExpectedExchange(): (s: seq<byte>)
    ensures |s| == ExchangeLen
  { Filled(ExchangeLen, 0x66) }

  function Start(): State { State(Idle, false, Zeroes(SigLen), Zeroes(ExchangeLen), 0, false) }

  /** aliro_listener_reset: queued work stays queued. */
  function Reset(s: State): State { Start().(queued := s.queued) }

  const ExpeditedAid: seq<byte> := [0xA0, 0x00, 0x00, 0x08, 0x58, 0x01, 0x01, 0x01, 0x00]
  const StepUpAid: seq<byte> := [0xA0, 0x00, 0x00, 0x08, 0x58, 0x01, 0x01, 0x02, 0x00]

  datatype Event = Select(aid: seq<byte>) | ResetNow | Inbound(apdu: Command) | Work

  /** aliro_listener_crypto_handler. */
  function Crypto(s: State): State {
    var t := s.(inflight := false, queued := false);
    match s.phase
    case AwaitAuth0 => t.(phase := AwaitAuth1)
    case AwaitAuth1 => t.(phase := if s.sig == ExpectedSig() then AwaitExchange else Error)
    case AwaitExchange =>
      t.(phase := if s.exchangeLen >= ExchangeLen && s.exchange == ExpectedExchange() then Done else Error)
    case _ => t.(phase := Error)
  }

  function Submit(s: State): State { s.(inflight := true, queued := true) }

  /** aliro_listener_on_apdu. */
  function OnApdu(s: State, c: Command): State {
    if s.phase == Error || s.phase == Done then s
    else if c.cla != 0x80 || s.inflight then s.(phase := Error)
    else if c.ins == 0x80 && s.phase == AwaitAuth0 then Submit(s)
    else if c.ins == 0x81 then
      if s.phase != AwaitAuth1 then s.(phase := Error)
      else Submit(if |c.data| >= SigLen then s.(sig := c.data[..SigLen]) else s)
    else if c.ins == 0x82 then
      if s.phase != AwaitExchange || |c.data| < ExchangeLen then s.(phase := Error)
      else Submit(s.(exchange := c.data[..ExchangeLen], exchangeLen := ExchangeLen))
    else s.(phase := Error)
  }

  function Step(s: State, e: Event): State {
    match e
    case Select(aid) => Reset(s).(phase := if aid == ExpeditedAid then AwaitAuth0 else Idle)
    case ResetNow => Reset(s)
    case Inbound(apdu) => OnApdu(s, apdu)
    case Work => if s.queued then Crypto(s) else s
  }

  function After(events: seq<Event>): State {
    if events == [] then Start() else Step(After(events[..|events| - 1]), events[|events| - 1])
  }

  // ---------- what is sent ----------

  function SelectAnswer(): seq<byte> { [0x00, 0x00] + Filled(16, 0x11) }

  function Auth0Answer(): seq<byte> { [0x00, 0x00] + Filled(16, 0xCC) + [0x04] + Filled(64, 0xDD) }

  function Auth1Answer(): seq<byte> { [0x00, 0x00] + Filled(SigLen, 0x55) }

  function ExchangeAnswer(): seq<byte> { [0x00, 0x00] + Filled(ExchangeLen, 0x77) }

  /** The response of the deferred work; it always sends one. */
  function CryptoAnswer(s: State): seq<byte> {
    match s.phase
    case AwaitAuth0 => Auth0Answer()
    case AwaitAuth1 => if s.sig == ExpectedSig() then Auth1Answer() else [0x69, 0x82]
    case AwaitExchange =>
      if s.exchangeLen >= ExchangeLen && s.exchange == ExpectedExchange() then ExchangeAnswer() else [0x69, 0x82]
    case _ => [0x69, 0x85]
  }

  /** A command that starts work is not answered at once. */
  predicate Starts(s: State, c: Command) {
    && s.phase != Error && s.phase != Done && c.cla == 0x80 && !s.inflight
    && ((c.ins == 0x80 && s.phase == AwaitAuth0) || (c.ins == 0x81 && s.phase == AwaitAuth1)
        || (c.ins == 0x82 && s.phase == AwaitExchange && |c.data| >= ExchangeLen))
  }

  function CommandAnswer(s: State, c: Command): seq<byte> {
    if s.phase == Error || s.phase == Done then [0x69, 0x85]
    else if c.cla != 0x80 then [0x6E, 0x00]
    else if s.inflight then [0x69, 0x85]
    else if c.ins == 0x81 then [0x69, 0x85]
    else if c.ins == 0x82 then if s.phase != AwaitExchange then [0x69, 0x85] else [0x67, 0x00]
    else [0x6D, 0x00]
  }

  /** The responses one event sends. */
  function Sent(s: State, e: Event): seq<seq<byte>> {
    match e
    case Select(aid) => [if aid == ExpeditedAid then SelectAnswer() else if aid == StepUpAid then [0x6A, 0x81] else [0x6A, 0x82]]
    case ResetNow => []
    case Inbound(apdu) => if Starts(s, apdu) then [] else [CommandAnswer(s, apdu)]
    case Work => if s.queued then [CryptoAnswer(s)] else []
  }

  function Responses(events: seq<Event>): seq<seq<byte>> {
    if events == [] then []
    else Responses(events[..|events| - 1]) + Sent(After(events[..|events| - 1]), events[|events| - 1])
  }

  /** Selections and commands: what a reader waits for a response to. */
  function Asked(events: seq<Event>): nat {
    if events == [] then 0
    else Asked(events[..|events| - 1]) + if events[|events| - 1].Select? || events[|events| - 1].Inbound? then 1 else 0
  }

  /** Commands that start work while earlier work is still queued: the queue holds the item once. */
  function Merged(events: seq<Event>): nat {
    if events == [] then 0
    else
      var s, e := After(events[..|events| - 1]), events[|events| - 1];
      Merged(events[..|events| - 1]) + if e.Inbound? && s.queued && Starts(s, e.apdu) then 1 else 0
  }

  /** In every run each selection and command is answered once, now or by the work it queued, except
      those whose work merged with work already there. */
  lemma {:induction false} AnswersCounted(events: seq<Event>)
    ensures Asked(events) == |Responses(events)| + Merged(events) + if After(events).queued then 1 else 0
    decreases |events|
  {
    if events != [] {
      hide Step, Sent, Starts;
      AnswersCounted(events[..|events| - 1]);
      AnswerStep(After(events[..|events| - 1]), events[|events| - 1]);
    }
  }

  lemma AnswerStep(s: State, e: Event)
    ensures (if s.queued then 1 else 0) + (if e.Select? || e.Inbound? then 1 else 0)
            == |Sent(s, e)| + (if e.Inbound? && s.queued && Starts(s, e.apdu) then 1 else 0) + (if Step(s, e).queued then 1 else 0)
  {
    hide ExpectedSig, ExpectedExchange, CommandAnswer, CryptoAnswer, SelectAnswer;
  }

  /** Nothing merges if resets find the queue empty. */
  predicate Drained(events: seq<Event>) {
    forall k :: 0 <= k < |events| && Resets(events[k]) ==> !After(events[..k]).queued
  }

  lemma DrainedStep(s: State, e: Event)
    requires (s.queued ==> s.inflight) && (Resets(e) ==> !s.queued)
    ensures var t := Step(s, e);
            (t.queued ==> t.inflight) && !(e.Inbound? && s.queued && Starts(s, e.apdu))
  {
    hide ExpectedSig, ExpectedExchange;
  }

  lemma {:induction false} DrainedNeverMerges(events: seq<Event>)
    requires Drained(events)
    ensures Merged(events) == 0 && (After(events).queued ==> After(events).inflight)
    decreases |events|
  {
    hide Step, Starts, Resets;
    if events != [] {
      var n := |events| - 1;
      DrainedPrefix(events);
      DrainedNeverMerges(events[..n]);
      DrainedStep(After(events[..n]), events[n]);
    }
  }

  lemma DrainedPrefix(events: seq<Event>)
    requires events != [] && Drained(events)
    ensures Drained(events[..|events| - 1]) && (Resets(events[|events| - 1]) ==> !After(events[..|events| - 1]).queued)
  {
    hide After;
    var n := |events| - 1;
    assert forall k :: 0 <= k < n ==> events[..n][..k] == events[..k];
  }

  /** A run in which a command stays without an answer: AUTH0, a new selection, AUTH0 again, one work. */
  lemma MergedRun()
    ensures var auth0 := Inbound(Command(0x80, 0x80, 0x00, 0x00, [], 0, false, false));
            var run := [Select(ExpeditedAid), auth0, Select(ExpeditedAid), auth0, Work];
            Asked(run) == 4 && |Responses(run)| == 3 && !After(run).queued
  {
    hide ExpectedSig, ExpectedExchange, CommandAnswer, CryptoAnswer, SelectAnswer;
    var auth0 := Inbound(Command(0x80, 0x80, 0x00, 0x00, [], 0, false, false));
    var run1 := [Select(ExpeditedAid)];
    var run2 := run1 + [auth0];
    var run3 := run2 + [Select(ExpeditedAid)];
    var run4 := run3 + [auth0];
    var run5 := run4 + [Work];
    assert run1[..0] == [] && run2[..1] == run1 && run3[..2] == run2 && run4[..3] == run3 && run5[..4] == run4;
    assert After([]) == Start();
    assert After(run1).phase == AwaitAuth0 && !After(run1).inflight;
    assert Asked(run1) == 1 && Merged(run1) == 0;
    assert After(run2).queued && Asked(run2) == 2 && Merged(run2) == 0;
    assert After(run3) == Step(After(run2), Select(ExpeditedAid));
    assert Asked(run3) == 3 && Merged(run3) == 0;
    assert Starts(After(run3), auth0.apdu) && After(run3).queued;
    assert Asked(run4) == 4 && Merged(run4) == 1;
    assert !After(run5).queued && Merged(run5) == 1;
    AnswersCounted(run5);
    assert run5 == [Select(ExpeditedAid), auth0, Select(ExpeditedAid), auth0, Work];
  }

  // ---------- access needs both proofs, in order ----------

  predicate Resets(e: Event) { e.Select? || e.ResetNow? }

  predicate GoodAuth1(e: Event) {
    e.Inbound? && e.apdu.cla == 0x80 && e.apdu.ins == 0x81 && |e.apdu.data| >= SigLen && e.apdu.data[..SigLen] == ExpectedSig()
  }

  predicate GoodExchange(e: Event) {
    e.Inbound? && e.apdu.cla == 0x80 && e.apdu.ins == 0x82 && |e.apdu.data| >= ExchangeLen
    && e.apdu.data[..ExchangeLen] == ExpectedExchange()
  }

  /** Event i belongs to the current session. */
  predicate Current(events: seq<Event>, i: nat) {
    i < |events| && forall k :: i <= k < |events| ==> !Resets(events[k])
  }

  predicate ProvedAt(events: seq<Event>, i: nat) { Current(events, i) && GoodAuth1(events[i]) }

  predicate BothAt(events: seq<Event>, i: nat, j: nat) { ProvedAt(events, i) && i < j < |events| && GoodExchange(events[j]) }

  /** What a bystander who only watches the commands would have noted. */
  datatype Notes = Notes(proved: bool, both: bool)

  function NextNotes(n: Notes, e: Event): Notes {
    if Resets(e) then Notes(false, false) else Notes(n.proved || GoodAuth1(e), n.both || (n.proved && GoodExchange(e)))
  }

  function Watch(events: seq<Event>): Notes {
    if events == [] then Notes(false, false) else NextNotes(Watch(events[..|events| - 1]), events[|events| - 1])
  }

  lemma CurrentSnoc(events: seq<Event>, i: nat)
    requires events != [] && i < |events| - 1
    ensures Current(events, i) <==> !Resets(events[|events| - 1]) && Current(events[..|events| - 1], i)
  {
    var n := |events| - 1;
    assert forall k :: 0 <= k < n ==> events[..n][k] == events[k];
  }

  lemma {:induction false} NotesTrue(events: seq<Event>)
    ensures Watch(events).proved ==> exists i: nat :: ProvedAt(events, i)
    ensures Watch(events).both ==> exists i: nat, j: nat :: BothAt(events, i, j)
    decreases |events|
  {
    if events != [] {
      var n := |events| - 1;
      var before, e := events[..n], events[n];
      NotesTrue(before);
      if !Resets(e) {
        if Watch(before).proved {
          var i: nat :| ProvedAt(before, i);
          CurrentSnoc(events, i);
          assert ProvedAt(events, i);
          if GoodExchange(e) { assert BothAt(events, i, n); }
        } else if GoodAuth1(e) {
          assert ProvedAt(events, n);
        }
        if Watch(before).both {
          var i: nat, j: nat :| BothAt(before, i, j);
          CurrentSnoc(events, i);
          assert BothAt(events, i, j);
        }
      }
    }
  }

  /** The state never knows more than the bystander. */
  predicate Explained(s: State, n: Notes) {
    && |s.sig| == SigLen && |s.exchange| == ExchangeLen && (n.both ==> n.proved)
    && (s.sig == ExpectedSig() ==> n.proved)
    && (s.phase == AwaitExchange || s.phase == Done ==> n.proved)
    && (s.exchangeLen >= ExchangeLen && s.exchange == ExpectedExchange() ==> n.both)
    && (s.phase == Done ==> n.both)
  }

  lemma BlankIsWrong()
    ensures Zeroes(SigLen) != ExpectedSig() && Zeroes(ExchangeLen) != ExpectedExchange()
  {
    assert Zeroes(SigLen)[0] == 0 && ExpectedSig()[0] == 0x44;
    assert Zeroes(ExchangeLen)[0] == 0 && ExpectedExchange()[0] == 0x66;
  }

  lemma StepExplained(s: State, n: Notes, e: Event)
    requires Explained(s, n)
    ensures Explained(Step(s, e), NextNotes(n, e))
  {
    BlankIsWrong();
    hide ExpectedSig, ExpectedExchange, Zeroes;
  }

  lemma {:induction false} RunExplained(events: seq<Event>)
    ensures Explained(After(events), Watch(events))
    decreases |events|
  {
    if events == [] {
      BlankIsWrong();
    } else {
      hide Step, Explained;
      var n := |events| - 1;
      RunExplained(events[..n]);
      StepExplained(After(events[..n]), Watch(events[..n]), events[n]);
    }
  }

  /** In every run, access is granted only if the current session received an AUTH1 with the
      expected signature and, later, an EXCHANGE with the expected payload. */
  lemma DoneNeedsBoth(events: seq<Event>)
    requires After(events).phase == Done
    ensures exists i: nat, j: nat :: BothAt(events, i, j)
  {
    hide Watch, After, BothAt;
    RunExplained(events);
    NotesTrue(events);
  }

  /** So the response that grants access is only ever sent to a session that proved itself twice. */
  lemma GrantNeedsBoth(events: seq<Event>, e: Event)
    requires ExchangeAnswer() in Sent(After(events), e)
    ensures exists i: nat, j: nat :: BothAt(events, i, j)
  {
    var s := After(events);
    Distinct();
    hide Auth0Answer, Auth1Answer, ExchangeAnswer, SelectAnswer, ExpectedSig, ExpectedExchange;
    assert Step(s, e).phase == Done;
    var run := events + [e];
    assert run[..|events|] == events && After(run) == Step(s, e);
    hide After, Step, BothAt, Sent;
    DoneNeedsBoth(run);
    var i: nat, j: nat :| BothAt(run, i, j);
    BothBefore(events, e, i, j);
  }

  lemma Distinct()
    ensures |ExchangeAnswer()| > 2 && ExchangeAnswer() != Auth0Answer() && ExchangeAnswer() != Auth1Answer()
    ensures ExchangeAnswer() != SelectAnswer()
  {
  }

  /** Work is not a command, so both proofs came before it. */
  lemma BothBefore(events: seq<Event>, e: Event, i: nat, j: nat)
    requires e.Work? && BothAt(events + [e], i, j)
    ensures BothAt(events, i, j)
  {
    assert forall k :: 0 <= k < |events| ==> (events + [e])[k] == events[k];
  }

  /** And a session that goes by the book is granted access, from any state with nothing queued. */
  lemma BookSessionDone(s: State, auth0: Event, auth1: Event, exchange: Event)
    requires !s.queued && IsAuth0(auth0) && GoodAuth1(auth1) && GoodExchange(exchange)
    ensures var s1 := Step(Step(Step(s, Select(ExpeditedAid)), auth0), Work);
            var s2 := Step(Step(s1, auth1), Work);
            Step(Step(s2, exchange), Work).phase == Done
            && Sent(Step(s2, exchange), Work) == [ExchangeAnswer()]
  {
    hide ExpectedSig, ExpectedExchange, ExchangeAnswer;
  }

  // ---------- which response goes with which step ----------

  /** The four responses of success, byte by byte; no two have the same length, and all are longer than a
      status word. */
  lemma SuccessBytes(i: nat)
    ensures |SelectAnswer()| == 18 && |Auth0Answer()| == 83 && |Auth1Answer()| == 66 && |ExchangeAnswer()| == 31
    ensures i < 18 ==> SelectAnswer()[i] == if i < 2 then 0x00 else 0x11
    ensures i < 83 ==> Auth0Answer()[i] == if i < 2 then 0x00 else if i < 18 then 0xCC else if i == 18 then 0x04 else 0xDD
    ensures i < 66 ==> Auth1Answer()[i] == if i < 2 then 0x00 else 0x55
    ensures i < 31 ==> ExchangeAnswer()[i] == if i < 2 then 0x00 else 0x77
  {
  }

  /** A response of success is sent exactly when the session moves on by that step. */
  lemma SuccessIff(s: State, e: Event)
    ensures SelectAnswer() in Sent(s, e) <==> e == Select(ExpeditedAid)
    ensures Auth0Answer() in Sent(s, e) <==> s.phase == AwaitAuth0 && Step(s, e).phase == AwaitAuth1
    ensures Auth1Answer() in Sent(s, e) <==> s.phase == AwaitAuth1 && Step(s, e).phase == AwaitExchange
    ensures ExchangeAnswer() in Sent(s, e) <==> s.phase == AwaitExchange && Step(s, e).phase == Done
    ensures forall rx :: rx in Sent(s, e) ==>
              |rx| == 2 || rx == SelectAnswer() || rx == Auth0Answer() || rx == Auth1Answer() || rx == ExchangeAnswer()
  {
    SuccessBytes(0);
    hide SelectAnswer, Auth0Answer, Auth1Answer, ExchangeAnswer, ExpectedSig, ExpectedExchange;
  }

  /** A selection by the expedited AID opens a session and is answered with the nonce; the step-up AID and any
      other are refused, each in its own way. */
  lemma SelectionAnswered(s: State, aid: seq<byte>)
    ensures var t := Step(s, Select(aid));
            if aid == [0xA0, 0x00, 0x00, 0x08, 0x58, 0x01, 0x01, 0x01, 0x00] then
              t.phase == AwaitAuth0 && Sent(s, Select(aid)) == [SelectAnswer()]
            else t.phase == Idle && Sent(s, Select(aid)) ==
                 [if aid == [0xA0, 0x00, 0x00, 0x08, 0x58, 0x01, 0x01, 0x02, 0x00] then [0x6A, 0x81] else [0x6A, 0x82]]
  {
    hide SelectAnswer;
  }

  /** What the deferred work says when it refuses: a wrong proof, or work outside a session. */
  lemma WorkRefuses(s: State)
    requires s.queued && Step(s, Work).phase == Error
    ensures Sent(s, Work) == [if s.phase == AwaitAuth1 || s.phase == AwaitExchange then [0x69, 0x82] else [0x69, 0x85]]
  {
    hide ExpectedSig, ExpectedExchange;
  }

  /** What a command that starts nothing is told. */
  lemma CommandRefused(s: State, c: Command)
    requires !Starts(s, c)
    ensures Step(s, Inbound(c)).phase == if s.phase == Done then Done else Error
    ensures var rx := Sent(s, Inbound(c));
            if s.phase == Error || s.phase == Done then rx == [[0x69, 0x85]]
            else if c.cla != 0x80 then rx == [[0x6E, 0x00]]
            else if s.inflight || c.ins == 0x81 || (c.ins == 0x82 && s.phase != AwaitExchange) then rx == [[0x69, 0x85]]
            else if c.ins == 0x82 then |c.data| < 29 && rx == [[0x67, 0x00]]
            else rx == [[0x6D, 0x00]]
  {
  }

  /** The proofs looked for: sixty-four bytes 44, and twenty-nine bytes 66. */
  lemma ProofBytes(e: Event)
    ensures GoodAuth1(e) <==> && e.Inbound? && e.apdu.cla == 0x80 && e.apdu.ins == 0x81 && |e.apdu.data| >= 64
                              && forall i :: 0 <= i < 64 ==> e.apdu.data[i] == 0x44
    ensures GoodExchange(e) <==> && e.Inbound? && e.apdu.cla == 0x80 && e.apdu.ins == 0x82 && |e.apdu.data| >= 29
                                 && forall i :: 0 <= i < 29 ==> e.apdu.data[i] == 0x66
  {
    if e.Inbound? {
      var d := e.apdu.data;
      if |d| >= 64 && d[..64] == ExpectedSig() { forall i | 0 <= i < 64 ensures d[i] == 0x44 { assert d[..64][i] == ExpectedSig()[i]; } }
      if |d| >= 29 && d[..29] == ExpectedExchange() { forall i | 0 <= i < 29 ensures d[i] == 0x66 { assert d[..29][i] == ExpectedExchange()[i]; } }
    }
  }

  // ---------- errors last until a reset ----------

  lemma {:induction false} ErrorStays(events: seq<Event>, more: seq<Event>)
    requires After(events).phase == Error && forall k :: 0 <= k < |more| ==> !Resets(more[k])
    ensures After(events + more).phase == Error
    decreases |more|
  {
    if more == [] {
      assert events + more == events;
    } else {
      var n := |more| - 1;
      ErrorStays(events, more[..n]);
      assert (events + more)[..|events| + n] == events + more[..n];
      assert (events + more)[|events| + n] == more[n];
      ErrorStep(After(events + more[..n]), more[n]);
    }
  }

  lemma ErrorStep(s: State, e: Event)
    requires s.phase == Error && !Resets(e)
    ensures Step(s, e).phase == Error
  {
  }

  // ---------- moving past AUTH0 ----------

  predicate IsAuth0(e: Event) { e.Inbound? && e.apdu.cla == 0x80 && e.apdu.ins == 0x80 }

  /** An AUTH0 came in the current session, or work was still queued when it began. */
  function Excused(events: seq<Event>): bool {
    if events == [] then false
    else
      var before, e := events[..|events| - 1], events[|events| - 1];
      if Resets(e) then After(before).queued else Excused(before) || IsAuth0(e)
  }

  predicate Advanced(s: State) { s.phase == AwaitAuth1 || s.phase == AwaitExchange || s.phase == Done }

  lemma {:induction false} AdvancedExcused(events: seq<Event>)
    ensures Advanced(After(events)) || After(events).queued ==> Excused(events)
    decreases |events|
  {
    if events != [] {
      hide ExpectedSig, ExpectedExchange;
      AdvancedExcused(events[..|events| - 1]);
    }
  }

  /** Not past AUTH0, and without an AUTH0 never to be. */
  predicate Stuck(s: State) { s.phase == Idle || s.phase == Error || (s.phase == AwaitAuth0 && !s.queued) }

  predicate WithoutAuth0(events: seq<Event>) {
    forall k :: 0 <= k < |events| ==> !Resets(events[k]) && !IsAuth0(events[k])
  }

  lemma StuckStep(s: State, e: Event)
    requires Stuck(s) && !Resets(e) && !IsAuth0(e)
    ensures Stuck(Step(s, e))
  {
    hide ExpectedSig, ExpectedExchange;
  }

  lemma {:induction false} StuckStays(events: seq<Event>, more: seq<Event>)
    requires Stuck(After(events)) && WithoutAuth0(more)
    ensures Stuck(After(events + more))
    decreases |more|
  {
    if more == [] {
      assert events + more == events;
    } else {
      hide Stuck, Step;
      var n := |more| - 1;
      StuckStays(events, more[..n]);
      assert (events + more)[..|events| + n] == events + more[..n];
      assert (events + more)[|events| + n] == more[n];
      StuckStep(After(events + more[..n]), more[n]);
    }
  }

  lemma StuckBehind(s: State)
    requires Stuck(s)
    ensures !Advanced(s)
  {
  }

  predicate AdvancedAt(opening: seq<Event>, session: seq<Event>, k: nat) {
    k <= |session| && Advanced(After(opening + session[..k]))
  }

  /** A session without AUTH0 gets past it at some point exactly when it was opened with the expedited
      AID while work was queued, and that work runs before any command comes. */
  lemma StaleSessionIff(before: seq<Event>, aid: seq<byte>, session: seq<Event>)
    requires WithoutAuth0(session)
    ensures (exists k: nat :: AdvancedAt(before + [Select(aid)], session, k)) <==>
            aid == ExpeditedAid && After(before).queued && session != [] && session[0].Work?
  {
    hide ExpectedSig, ExpectedExchange;
    var opening := before + [Select(aid)];
    assert opening[..|before|] == before;
    var s := After(opening);
    if session != [] {
      var first := opening + session[..1];
      assert first[..|opening|] == opening && first[|opening|] == session[0];
      assert After(first) == Step(s, session[0]);
      if aid == ExpeditedAid && After(before).queued && session[0].Work? {
        assert AdvancedAt(opening, session, 1);
      } else {
        assert Stuck(After(first));
        forall k: nat ensures !AdvancedAt(opening, session, k) { NeverAfterFirst(opening, session, k); }
      }
    } else {
      assert opening + session[..0] == opening;
    }
  }

  lemma NeverAfterFirst(opening: seq<Event>, session: seq<Event>, k: nat)
    requires session != [] && WithoutAuth0(session) && !Advanced(After(opening)) && Stuck(After(opening + session[..1]))
    ensures !AdvancedAt(opening, session, k)
  {
    hide After, Stuck, Advanced;
    if k == 0 {
      assert opening + session[..0] == opening;
    } else if k <= |session| {
      assert opening + session[..k] == (opening + session[..1]) + session[1..k];
      StuckStays(opening + session[..1], session[1..k]);
      StuckBehind(After(opening + session[..k]));
    }
  }

  /** Such a run: two selections, one AUTH0 in the first session, none in the second. */
  lemma StaleRun()
    ensures var auth0 := Inbound(Command(0x80, 0x80, 0x00, 0x00, [], 0, false, false));
            After([Select(ExpeditedAid), auth0, Select(ExpeditedAid), Work]).phase == AwaitAuth1
  {
    var auth0 := Inbound(Command(0x80, 0x80, 0x00, 0x00, [], 0, false, false));
    var run := [Select(ExpeditedAid), auth0, Select(ExpeditedAid), Work];
    assert run[..3] == [Select(ExpeditedAid), auth0, Select(ExpeditedAid)] && run[..3][..2] == [Select(ExpeditedAid), auth0];
    assert run[..3][..2][..1] == [Select(ExpeditedAid)] && run[..3][..2][..1][..0] == [];
    var s1 := Step(Start(), Select(ExpeditedAid));
    assert After(run[..3][..2][..1]) == s1;
    var s2 := Step(s1, auth0);
    assert After(run[..3][..2]) == s2 && s2.queued;
    assert After(run[..3]) == Step(s2, Select(ExpeditedAid));
  }

  // ---------- the code ----------

  class Listener {
    var phase: Phase
    var inflight: bool
    var sig: seq<byte>
    var exchange: seq<byte>
    var exchangeLen: nat
    var queued: bool

    function Value(): State
      reads this
    { State(phase, inflight, sig, exchange, exchangeLen, queued) }

    constructor ()
      ensures Value() == Start()
    {
      phase, inflight, sig, exchange, exchangeLen, queued := Idle, false, Zeroes(SigLen), Zeroes(ExchangeLen), 0, false;
    }

    method OnReset()
      modifies this
      ensures Value() == Step(old(Value()), ResetNow)
    {
      phase, inflight := Idle, false;
      sig, exchange, exchangeLen := Zeroes(SigLen), Zeroes(ExchangeLen), 0;
    }

    /** aliro_listener_on_select; only the expedited AID opens a session. */
    method OnSelect(aid: seq<byte>) returns (sent: seq<seq<byte>>)
      modifies this
      ensures Value() == Step(old(Value()), Select(aid)) && sent == Sent(old(Value()), Select(aid))
    {
      OnReset();
      if aid == ExpeditedAid { phase := AwaitAuth0; return [SelectAnswer()]; }
      if aid == StepUpAid { return [[0x6A, 0x81]]; }
      return [[0x6A, 0x82]];
    }

    /** aliro_listener_crypto_handler, run when the item is on the queue. */
    method CryptoHandler() returns (sent: seq<seq<byte>>)
      modifies this
      ensures Value() == Step(old(Value()), Work) && sent == Sent(old(Value()), Work)
    {
      hide ExpectedSig, ExpectedExchange;
      if !queued { return []; }
      queued, inflight := false, false;
      if phase == AwaitAuth0 { phase := AwaitAuth1; return [Auth0Answer()]; }
      if phase == AwaitAuth1 {
        if sig != ExpectedSig() { phase := Error; return [[0x69, 0x82]]; }
        phase := AwaitExchange;
        return [Auth1Answer()];
      }
      if phase == AwaitExchange {
        if exchangeLen < ExchangeLen { phase := Error; return [[0x69, 0x82]]; }
        if exchange != ExpectedExchange() { phase := Error; return [[0x69, 0x82]]; }
        phase := Done;
        return [ExchangeAnswer()];
      }
      phase := Error;
      return [[0x69, 0x85]];
    }

    /** aliro_listener_on_apdu. */
    method HandleApdu(c: Command) returns (sent: seq<seq<byte>>)
      modifies this
      ensures Value() == Step(old(Value()), Inbound(c)) && sent == Sent(old(Value()), Inbound(c))
    {
      if phase == Error || phase == Done { return [[0x69, 0x85]]; }
      if c.cla != 0x80 { phase := Error; return [[0x6E, 0x00]]; }
      if inflight { phase := Error; return [[0x69, 0x85]]; }
      if c.ins == 0x80 && phase == AwaitAuth0 { inflight, queued := true, true; return []; }
      if c.ins == 0x81 {
        if phase != AwaitAuth1 { phase := Error; return [[0x69, 0x85]]; }
        if |c.data| >= SigLen { sig := c.data[..SigLen]; }
        inflight, queued := true, true;
        return [];
      }
      if c.ins == 0x82 {
        if phase != AwaitExchange { phase := Error; return [[0x69, 0x85]]; }
        if |c.data| < ExchangeLen { phase := Error; return [[0x67, 0x00]]; }
        exchange, exchangeLen := c.data[..ExchangeLen], ExchangeLen;
        inflight, queued := true, true;
        return [];
      }
      phase := Error;
      return [[0x6D, 0x00]];
    }
  }
}
