/** The AID router (aid_router.c): a table of application identifiers and the active service.

    A service is known to the router by its callbacks; the calls the router makes are its
    observable behaviour.  Two results hold over every run of registrations, clears, field losses
    and commands: which service is active is decided by the latest matched SELECT, and the calls
    form well-bracketed sessions. */
module Router {
  import opened Bytes
  import opened Apdu

  /** A service: an identity and which of its callbacks are present. */
  datatype Service = Service(id: nat, onSelect: bool, onApdu: bool, onDeselect: bool, onFieldOff: bool)

  datatype Entry = Entry(aid: seq<byte>, svc: Service)

  datatype Call =
    | Selected(svc: Service, aid: seq<byte>)
    | Delivered(svc: Service, apdu: Command)
    | Deselected(svc: Service)
    | FieldLost(svc: Service)
    | Answered(sw: seq<byte>)

  datatype State = State(table: seq<Entry>, active: Option<Service>)

  const MaxAidLen := 16

  predicate SelectByAid(c: Command) { c.cla == 0x00 && c.ins == 0xA4 && c.p1 == 0x04 && |c.data| > 0 }

  /** find_aid as a value. */
  function Find(table: seq<Entry>, aid: seq<byte>): Option<Service> {
    if table == [] then None
    else if table[0].aid == aid then Some(table[0].svc)
    else Find(table[1..], aid)
  }

  predicate FirstAt(table: seq<Entry>, aid: seq<byte>, i: nat) {
    i < |table| && table[i].aid == aid && forall j :: 0 <= j < i ==> table[j].aid != aid
  }

  /** The entry found is the first with this AID, and there is none exactly when nothing is found. */
  lemma {:induction false} FindFirst(table: seq<Entry>, aid: seq<byte>, i: nat)
    requires FirstAt(table, aid, i)
    ensures Find(table, aid) == Some(table[i].svc)
    decreases |table|
  {
    if i > 0 {
      assert table[0].aid != aid;
      assert FirstAt(table[1..], aid, i - 1) by {
        assert forall j :: 0 <= j < i - 1 ==> table[1..][j] == table[j + 1];
      }
      FindFirst(table[1..], aid, i - 1);
    }
  }

  lemma {:induction false} FindNone(table: seq<Entry>, aid: seq<byte>)
    requires forall i :: 0 <= i < |table| ==> table[i].aid != aid
    ensures Find(table, aid) == None
    decreases |table|
  {
    if table != [] { FindNone(table[1..], aid); }
  }

  /** What the service that was active hears when svc is selected. */
  function Parting(s: State, svc: Service): seq<Call> {
    if s.active.Some? && s.active.value != svc && s.active.value.onDeselect then [Deselected(s.active.value)] else []
  }

  function Greeting(svc: Service, aid: seq<byte>): seq<Call> { if svc.onSelect then [Selected(svc, aid)] else [] }

  /** aid_router_dispatch. */
  function Dispatch(s: State, c: Command): (State, seq<Call>) {
    if SelectByAid(c) then
      var svc := Find(s.table, c.data);
      if svc.None? then (s, [Answered([0x6A, 0x82])])
      else (s.(active := svc), Parting(s, svc.value) + Greeting(svc.value, c.data))
    else if s.active.None? then (s, [Answered([0x69, 0x86])])
    else (s, if s.active.value.onApdu then [Delivered(s.active.value, c)] else [])
  }

  /** aid_router_field_off. */
  function FieldOff(s: State): (State, seq<Call>) {
    (s.(active := None), if s.active.Some? && s.active.value.onFieldOff then [FieldLost(s.active.value)] else [])
  }

  predicate Registrable(s: State, aid: seq<byte>, max: nat) {
    0 < |aid| <= MaxAidLen && |s.table| < max
  }

  // ---------- runs ----------

  datatype Event = Register(aid: seq<byte>, svc: Service) | Clear | FieldGone | Inbound(apdu: Command)

  function Step(s: State, e: Event, max: nat): (State, seq<Call>) {
    match e
    case Register(aid, svc) => (if Registrable(s, aid, max) then s.(table := s.table + [Entry(aid, svc)]) else s, [])
    case Clear => (State([], None), [])
    case FieldGone => FieldOff(s)
    case Inbound(apdu) => Dispatch(s, apdu)
  }

  /** The state after a history, from initialisation. */
  function After(history: seq<Event>, max: nat): State {
    if history == [] then State([], None)
    else Step(After(history[..|history| - 1], max), history[|history| - 1], max).0
  }

  // ---------- which service is active ----------

  /** The service event i selects: it is a SELECT whose AID was in the table when it came. */
  function MatchAt(history: seq<Event>, max: nat, i: nat): Option<Service>
    requires i < |history|
  {
    if history[i].Inbound? && SelectByAid(history[i].apdu) then Find(After(history[..i], max).table, history[i].apdu.data)
    else None
  }

  predicate Ends(e: Event) { e.Clear? || e.FieldGone? }

  /** Event i is the latest matched SELECT, and neither a clear nor a field loss came after it. */
  predicate Decides(history: seq<Event>, max: nat, i: nat, svc: Service) {
    i < |history| && MatchAt(history, max, i) == Some(svc) &&
    forall j :: i < j < |history| ==> !Ends(history[j]) && MatchAt(history, max, j) == None
  }

  lemma MatchAtPrefix(history: seq<Event>, max: nat, i: nat, n: nat)
    requires i < n <= |history|
    ensures MatchAt(history, max, i) == MatchAt(history[..n], max, i)
  {
    assert history[..n][..i] == history[..i];
  }

  /** Whether the last event decides, ends or leaves things as they were. */
  lemma DecidesStep(history: seq<Event>, max: nat, i: nat, svc: Service)
    requires history != []
    ensures var n := |history| - 1;
            Decides(history, max, i, svc) <==>
            if i == n then MatchAt(history, max, n) == Some(svc)
            else !Ends(history[n]) && MatchAt(history, max, n) == None && Decides(history[..n], max, i, svc)
  {
    hide MatchAt;
    var n := |history| - 1;
    forall j | 0 <= j < n ensures MatchAt(history, max, j) == MatchAt(history[..n], max, j) {
      MatchAtPrefix(history, max, j, n);
    }
  }

  /** The active service is the one of the deciding SELECT, if there is one. */
  lemma {:induction false} ActiveIff(history: seq<Event>, max: nat, svc: Service)
    ensures After(history, max).active == Some(svc) <==> exists i: nat :: Decides(history, max, i, svc)
    decreases |history|
  {
    hide Decides;
    if history == [] {
      forall i: nat ensures !Decides(history, max, i, svc) { NothingDecides(max, i, svc); }
    } else {
      var n := |history| - 1;
      ActiveIff(history[..n], max, svc);
      forall i: nat ensures Decides(history, max, i, svc) <==>
                            if i == n then MatchAt(history, max, n) == Some(svc)
                            else !Ends(history[n]) && MatchAt(history, max, n) == None && Decides(history[..n], max, i, svc) {
        DecidesStep(history, max, i, svc);
      }
      BeyondEnd(history[..n], max, n, svc);
    }
  }

  lemma NothingDecides(max: nat, i: nat, svc: Service)
    ensures !Decides([], max, i, svc)
  {
  }

  lemma BeyondEnd(history: seq<Event>, max: nat, i: nat, svc: Service)
    requires i >= |history|
    ensures !Decides(history, max, i, svc)
  {
  }

  // ---------- the calls form sessions ----------

  /** What an observer sees: the calls, the moments the field goes or the table is cleared, and a
      SELECT that matched, between the call that ends the old session and the one that opens the new. */
  datatype Item = Did(call: Call) | Chosen(svc: Service) | FieldDown | TableCleared

  function Items(calls: seq<Call>): seq<Item> { seq(|calls|, i requires 0 <= i < |calls| => Did(calls[i])) }

  function Chooses(s: State, e: Event): Option<Service> {
    if e.Inbound? && SelectByAid(e.apdu) then Find(s.table, e.apdu.data) else None
  }

  function Seen(s: State, e: Event, max: nat): seq<Item> {
    var svc := Chooses(s, e);
    if svc.Some? then Items(Parting(s, svc.value)) + [Chosen(svc.value)] + Items(Greeting(svc.value, e.apdu.data))
    else Items(Step(s, e, max).1) + (if e.Clear? then [TableCleared] else if e.FieldGone? then [FieldDown] else [])
  }

  function Trace(history: seq<Event>, max: nat): seq<Item> {
    if history == [] then []
    else
      var before := history[..|history| - 1];
      Trace(before, max) + Seen(After(before, max), history[|history| - 1], max)
  }

  /** An automaton for sessions, written without the router's state. */
  datatype Session =
    | Closed
    | Entering(svc: Service)
    | Open(svc: Service)
    | Leaving(svc: Service)
    | Fading(svc: Service)
    | Broken

  function Enter(svc: Service): Session { if svc.onSelect then Entering(svc) else Open(svc) }

  function Next(q: Session, item: Item): Session {
    match q
    case Broken => Broken
    case Closed =>
      (match item
       case Did(call) => if call.Answered? then Closed else Broken
       case Chosen(t) => Enter(t)
       case _ => Closed)
    case Entering(s) => if item.Did? && item.call.Selected? && item.call.svc == s then Open(s) else Broken
    case Open(s) =>
      (match item
       case Chosen(t) => if t == s || !s.onDeselect then Enter(t) else Broken
       case TableCleared => Closed
       case FieldDown => if s.onFieldOff then Broken else Closed
       case Did(Answered(_)) => Open(s)
       case Did(Delivered(t, _)) => if t == s && s.onApdu then Open(s) else Broken
       case Did(Deselected(t)) => if t == s && s.onDeselect then Leaving(s) else Broken
       case Did(FieldLost(t)) => if t == s && s.onFieldOff then Fading(s) else Broken
       case Did(Selected(_, _)) => Broken)
    case Leaving(s) => if item.Chosen? && item.svc != s then Enter(item.svc) else Broken
    case Fading(s) => if item.FieldDown? then Closed else Broken
  }

  function Drive(q: Session, items: seq<Item>): Session
    decreases |items|
  {
    if items == [] then q else Drive(Next(q, items[0]), items[1..])
  }

  lemma {:induction false} DriveConcat(q: Session, a: seq<Item>, b: seq<Item>)
    ensures Drive(q, a + b) == Drive(Drive(q, a), b)
    decreases |a|
  {
    if a == [] { assert a + b == b; }
    else {
      assert (a + b)[0] == a[0] && (a + b)[1..] == a[1..] + b;
      DriveConcat(Next(q, a[0]), a[1..], b);
    }
  }

  function SessionOf(s: State): Session { if s.active.None? then Closed else Open(s.active.value) }

  lemma Drive0(q: Session, items: seq<Item>)
    requires items == []
    ensures Drive(q, items) == q
  {
  }

  lemma Drive1(q: Session, item: Item)
    ensures Drive(q, [item]) == Next(q, item)
  {
  }

  /** A single call or none. */
  lemma DriveCalls(q: Session, calls: seq<Call>)
    requires |calls| <= 1
    ensures Drive(q, Items(calls)) == if calls == [] then q else Next(q, Did(calls[0]))
  {
    hide Next;
    if calls == [] { Drive0(q, Items(calls)); }
    else { assert Items(calls) == [Did(calls[0])]; Drive1(q, Did(calls[0])); }
  }

  /** A matched SELECT closes the old session and opens the new one. */
  lemma ChangeOver(s: State, svc: Service, aid: seq<byte>)
    ensures Drive(SessionOf(s), Items(Parting(s, svc)) + [Chosen(svc)] + Items(Greeting(svc, aid))) == Open(svc)
  {
    hide Drive;
    var q0 := SessionOf(s);
    DriveCalls(q0, Parting(s, svc));
    var q1 := Drive(q0, Items(Parting(s, svc)));
    DriveConcat(q0, Items(Parting(s, svc)), [Chosen(svc)]);
    Drive1(q1, Chosen(svc));
    DriveConcat(q0, Items(Parting(s, svc)) + [Chosen(svc)], Items(Greeting(svc, aid)));
    DriveCalls(Enter(svc), Greeting(svc, aid));
  }

  lemma FieldOffSession(s: State)
    ensures Drive(SessionOf(s), Items(FieldOff(s).1) + [FieldDown]) == Closed
  {
    hide Drive;
    DriveCalls(SessionOf(s), FieldOff(s).1);
    DriveConcat(SessionOf(s), Items(FieldOff(s).1), [FieldDown]);
    Drive1(Drive(SessionOf(s), Items(FieldOff(s).1)), FieldDown);
  }

  lemma SessionStep(s: State, e: Event, max: nat)
    ensures Drive(SessionOf(s), Seen(s, e, max)) == SessionOf(Step(s, e, max).0)
  {
    hide Drive, Find;
    var calls := Step(s, e, max).1;
    match e
    case Register(aid, svc) => Drive0(SessionOf(s), Seen(s, e, max));
    case Clear =>
      assert Seen(s, e, max) == [TableCleared];
      Drive1(SessionOf(s), TableCleared);
    case FieldGone => FieldOffSession(s);
    case Inbound(apdu) =>
      if Chooses(s, e).Some? {
        ChangeOver(s, Chooses(s, e).value, apdu.data);
      } else {
        assert Seen(s, e, max) == Items(calls);
        DriveCalls(SessionOf(s), calls);
      }
  }

  /** In every run, with whatever callbacks the services have, the calls keep to sessions: a service
      hears commands only while selected, hears of its selection first if it asks for that, is
      deselected once and right before another is chosen, and hears of the field loss that ends its
      session.  The session the calls describe is the router's active service. */
  lemma {:induction false} SessionsKept(history: seq<Event>, max: nat)
    ensures Drive(Closed, Trace(history, max)) == SessionOf(After(history, max)) != Broken
    decreases |history|
  {
    hide Step, Seen, Next;
    if history != [] {
      var n := |history| - 1;
      var before := history[..n];
      SessionsKept(before, max);
      var s := After(before, max);
      SessionStep(s, history[n], max);
      DriveConcat(Closed, Trace(before, max), Seen(s, history[n], max));
    }
  }

  /** The calls that answer a command: the router's own, or a callback that is to do so. */
  function Answers(calls: seq<Call>): nat {
    if calls == [] then 0
    else (if calls[0].Answered? || calls[0].Selected? || calls[0].Delivered? then 1 else 0) + Answers(calls[1..])
  }

  /** A command is answered at most once, and goes unanswered exactly when it is for a service that
      lacks the callback in question. */
  lemma OneAnswer(s: State, c: Command)
    ensures Answers(Dispatch(s, c).1) ==
            if SelectByAid(c) then
              var svc := Find(s.table, c.data);
              if svc.Some? && !svc.value.onSelect then 0 else 1
            else if s.active.Some? && !s.active.value.onApdu then 0 else 1
  {
    hide Find;
    var calls := Dispatch(s, c).1;
    if |calls| == 2 {
      var rest := calls[1..];
      assert calls[0].Deselected? && rest == [calls[1]] && calls[1].Selected?;
      assert Answers(rest) == 1 + Answers(rest[1..]) && rest[1..] == [];
    } else if |calls| == 1 {
      assert calls[1..] == [];
    }
  }

  /** What the router answers itself: 6A82 to a SELECT of an AID nobody registered, 6986 to anything else
      while no service is active, and nothing in other cases. */
  lemma OwnAnswers(s: State, c: Command, sw: seq<byte>)
    ensures var select := c.cla == 0x00 && c.ins == 0xA4 && c.p1 == 0x04 && c.data != [];
            Answered(sw) in Dispatch(s, c).1 <==>
            if select then sw == [0x6A, 0x82] && forall i :: 0 <= i < |s.table| ==> s.table[i].aid != c.data
            else sw == [0x69, 0x86] && s.active.None?
  {
    hide Find;
    FoundIff(s.table, c.data);
  }

  lemma {:induction false} FoundIff(table: seq<Entry>, aid: seq<byte>)
    ensures Find(table, aid).None? <==> forall i :: 0 <= i < |table| ==> table[i].aid != aid
    decreases |table|
  {
    if table != [] {
      FoundIff(table[1..], aid);
      assert forall i :: 0 < i < |table| ==> table[i] == table[1..][i - 1];
    }
  }

  // ---------- the code ----------

  /** The router's static variables; its methods return the callbacks they invoke, in order. */
  class AidRouter {
    var table: seq<Entry>
    var active: Option<Service>
    const max: nat

    function Value(): State
      reads this
    { State(table, active) }

    /** aid_router_init. */
    constructor (maxAids: nat)
      ensures Value() == State([], None) && max == maxAids
    {
      table, active, max := [], None, maxAids;
    }

    /** aid_router_register. */
    method Register(aid: seq<byte>, svc: Service) returns (ok: bool)
      modifies this`table
      ensures ok <==> 0 < |aid| <= 16 && |old(table)| < max
      ensures Value() == Step(old(Value()), Event.Register(aid, svc), max).0
    {
      if |aid| == 0 || |aid| > MaxAidLen { return false; }
      if |table| >= max { return false; }
      table := table + [Entry(aid, svc)];
      return true;
    }

    /** aid_router_clear. */
    method Clear()
      modifies this
      ensures Value() == Step(old(Value()), Event.Clear, max).0
    {
      table, active := [], None;
    }

    /** aid_router_field_off. */
    method OnFieldOff() returns (calls: seq<Call>)
      modifies this`active
      ensures (Value(), calls) == FieldOff(old(Value()))
    {
      calls := [];
      if active.Some? && active.value.onFieldOff { calls := [FieldLost(active.value)]; }
      active := None;
    }

    /** find_aid. */
    method FindAid(aid: seq<byte>) returns (r: Option<Service>)
      ensures r == Find(table, aid)
    {
      for i := 0 to |table|
        invariant forall j :: 0 <= j < i ==> table[j].aid != aid
      {
        if table[i].aid == aid {
          FindFirst(table, aid, i);
          return Some(table[i].svc);
        }
      }
      FindNone(table, aid);
      return None;
    }

    /** aid_router_dispatch. */
    method OnApdu(c: Command) returns (calls: seq<Call>)
      modifies this`active
      ensures (Value(), calls) == Dispatch(old(Value()), c)
    {
      calls := [];
      if SelectByAid(c) {
        var found := FindAid(c.data);
        if found.None? { return [Answered([0x6A, 0x82])]; }
        if active.Some? && active != found && active.value.onDeselect { calls := [Deselected(active.value)]; }
        active := found;
        calls := calls + if active.value.onSelect then [Selected(active.value, c.data)] else [];
        return;
      }
      if active.None? { return [Answered([0x69, 0x86])]; }
      if active.value.onApdu { calls := [Delivered(active.value, c)]; }
    }
  }
}
