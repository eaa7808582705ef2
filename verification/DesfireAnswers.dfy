/** What a DESFire card answers, in terms of its image and of the application and file a command is
    about, and what no run of commands can do. */
module DesfireAnswers {
  import opened Bytes
  import opened Apdu
  import opened Desfire
  import opened DesfireCard

  const Ok: seq<byte> := [0x91, 0x00]

  predicate Native(a: Command, ins: byte) { a.cla == 0x90 && a.ins == ins }

  /** Application p is selected. */
  predicate Chosen(c: Card, p: nat) { c.selected == Some(p) && p < |c.model.apps| }

  /** No application is. */
  predicate NoneChosen(c: Card) { c.selected.None? || c.selected.value >= |c.model.apps| }

  /** File q of application p is the first with this identifier. */
  predicate FileAt(c: Card, p: nat, q: nat, id: byte) {
    && Chosen(c, p) && q < |c.model.apps[p].files| && c.model.apps[p].files[q].id == id
    && forall j :: 0 <= j < q ==> c.model.apps[p].files[j].id != id
  }

  predicate NoFileAt(c: Card, p: nat, id: byte) {
    Chosen(c, p) && forall j :: 0 <= j < |c.model.apps[p].files| ==> c.model.apps[p].files[j].id != id
  }

  lemma FoundFile(c: Card, p: nat, q: nat, id: byte)
    requires FileAt(c, p, q, id)
    ensures SelectedApp(c) == Some(c.model.apps[p]) && FindFile(c.model.apps[p].files, id) == Some(q)
  {
    hide FindFile;
    var r := FindFile(c.model.apps[p].files, id);
    assert r.Some?;
    assert !(r.value < q) && !(q < r.value);
  }

  lemma FoundNone(c: Card, p: nat, id: byte)
    requires NoFileAt(c, p, id)
    ensures SelectedApp(c) == Some(c.model.apps[p]) && FindFile(c.model.apps[p].files, id) == None
  {
    hide FindFile;
  }

  // ---------- queries about the card ----------

  lemma FreeMemoryAnswered(c: Card, a: Command)
    requires Sound(c) && Native(a, 0x6E)
    ensures var t := OnApdu(c, a);
            t.card == c && |t.rx| == 6 && t.rx[4..] == Ok && From32(t.rx[0], t.rx[1], t.rx[2], t.rx[3]) == c.model.freeMemory
  {
    Le32Back(c.model.freeMemory);
    hide From32;
  }

  lemma KeySettingsAnswered(c: Card, a: Command)
    requires Sound(c) && Native(a, 0x45)
    ensures NoneChosen(c) ==> OnApdu(c, a) == Turn(c, [c.model.masterKeySettings, 0x0F] + Ok)
    ensures forall p :: 0 <= p && Chosen(c, p) ==>
              OnApdu(c, a) == Turn(c, [c.model.apps[p].keySettings, |c.model.apps[p].keys| as byte] + Ok)
  {
    forall p | 0 <= p && Chosen(c, p) ensures |c.model.apps[p].keys| < 256 { assert WellFormedApp(c.model.apps[p]); }
  }

  /** Only key 0 has a version. */
  lemma KeyVersionAnswered(c: Card, a: Command)
    requires Sound(c) && Native(a, 0x64)
    ensures OnApdu(c, a) == Turn(c, if a.data == [] then [0x91, 0x7E] else if a.data[0] == 0 then [0x00] + Ok else [0x91, 0x40])
  {
  }

  lemma {:induction false} AppIdsAt(apps: seq<App>, i: nat)
    requires forall j :: 0 <= j < |apps| ==> |apps[j].id| == 3
    ensures |AppIds(apps)| == 3 * |apps|
    ensures i < |apps| ==> AppIds(apps)[3 * i..3 * i + 3] == apps[i].id
    decreases |apps|
  {
    if apps != [] {
      AppIdsAt(apps[1..], if i == 0 then 0 else i - 1);
      var ids, rest := AppIds(apps), AppIds(apps[1..]);
      if i == 0 { assert ids[0..3] == apps[0].id; }
      else if i < |apps| { assert ids[3 * i..3 * i + 3] == rest[3 * (i - 1)..3 * (i - 1) + 3]; }
    }
  }

  /** The identifiers of all applications, three bytes each, as long as they fit. */
  lemma AppIdsAnswered(c: Card, a: Command)
    requires Sound(c) && Native(a, 0x6A)
    ensures var t, n := OnApdu(c, a), |c.model.apps|;
            && t.card == c && (n > 84 ==> t.rx == [0x91, 0x7E])
            && (n <= 84 ==> |t.rx| == 3 * n + 2 && t.rx[3 * n..] == Ok &&
                            forall i :: 0 <= i < n ==> t.rx[3 * i..3 * i + 3] == c.model.apps[i].id)
  {
    hide AppIds;
    var ids, n := AppIds(c.model.apps), |c.model.apps|;
    assert forall i :: 0 <= i < n ==> WellFormedApp(c.model.apps[i]);
    hide WellFormedApp;
    AppIdsAt(c.model.apps, 0);
    if n <= 84 {
      forall i | 0 <= i < n ensures (ids + Ok)[3 * i..3 * i + 3] == c.model.apps[i].id {
        AppIdsAt(c.model.apps, i);
        assert (ids + Ok)[3 * i..3 * i + 3] == ids[3 * i..3 * i + 3];
      }
    }
  }

  lemma {:induction false} FileIdsAt(files: seq<File>, i: nat)
    requires i < |files|
    ensures FileIds(files)[i] == files[i].id
    decreases |files|
  {
    if i > 0 { FileIdsAt(files[1..], i - 1); }
  }

  /** The numbers of the selected application's files. */
  lemma FileIdsAnswered(c: Card, a: Command, p: nat)
    requires Sound(c) && Native(a, 0x6F)
    ensures OnApdu(c, a).card == c
    ensures NoneChosen(c) ==> OnApdu(c, a).rx == [0x91, 0xA0]
    ensures Chosen(c, p) ==>
              var rx, n := OnApdu(c, a).rx, |c.model.apps[p].files|;
              && (n > 253 ==> rx == [0x91, 0x7E])
              && (n <= 253 ==> |rx| == n + 2 && rx[n..] == Ok && forall i :: 0 <= i < n ==> rx[i] == c.model.apps[p].files[i].id)
  {
    if Chosen(c, p) {
      hide FileIds;
      var files := c.model.apps[p].files;
      forall i | 0 <= i < |files| ensures FileIds(files)[i] == files[i].id { FileIdsAt(files, i); }
    }
  }

  lemma VersionLayout(d: Data)
    requires Desfire.WellFormed(d)
    ensures var v := VersionBytes(d);
            && v[..7] == d.hw && v[7..14] == d.sw && v[14..21] == d.uid && v[21..26] == d.batch && v[26] == d.week && v[27] == d.year
  {
  }

  /** GET_VERSION and two continuations give hardware, software and the rest in three frames. */
  lemma VersionAnswered(c: Card, a: Command, b: Command, e: Command)
    requires Sound(c) && c.pending != Version && Native(a, 0x60) && Native(b, 0xAF) && Native(e, 0xAF)
    ensures var d, t1 := c.model, OnApdu(c, a);
            && t1.rx == d.hw + [0x91, 0xAF] && Sound(t1.card) &&
            var t2 := OnApdu(t1.card, b);
            && t2.rx == d.sw + [0x91, 0xAF] && Sound(t2.card) &&
            var t3 := OnApdu(t2.card, e);
            t3.rx == d.uid + d.batch + [d.week, d.year] + Ok && t3.card.pending == Nothing
  {
    VersionLayout(c.model);
    hide VersionBytes;
    var v := VersionBytes(c.model);
    assert v[14..] == v[14..21] + v[21..26] + [v[26], v[27]];
  }

  // ---------- queries about a file ----------

  /** GET_FILE_SETTINGS gives the kind, the communication mode, the access rights and the value, least
      significant byte first: four bytes of a limit, three of a size. */
  lemma FileSettingsAnswered(c: Card, a: Command, p: nat, q: nat)
    requires Sound(c) && Native(a, 0xF5)
    ensures OnApdu(c, a).card == c
    ensures NoneChosen(c) ==> OnApdu(c, a).rx == [0x91, 0xA0]
    ensures Chosen(c, p) && a.data == [] ==> OnApdu(c, a).rx == [0x91, 0x7E]
    ensures a.data != [] && NoFileAt(c, p, a.data[0]) ==> OnApdu(c, a).rx == [0x91, 0xF0]
    ensures a.data != [] && FileAt(c, p, q, a.data[0]) ==>
              var s, rx := c.model.apps[p].files[q].settings, OnApdu(c, a).rx;
              && (s.kind > 4 ==> rx == [0x91, 0x1C])
              && (s.kind <= 4 ==>
                  && |rx| == 10 && rx[8..] == Ok && rx[0] == s.kind && rx[1] == s.comm
                  && rx[2] as nat + 256 * rx[3] as nat == s.access
                  && rx[4] as nat + 256 * rx[5] as nat + 65536 * rx[6] as nat == s.word % 0x1000000
                  && rx[7] as nat == if s.kind == 2 then s.word / 0x1000000 else 0)
  {
    if a.data != [] && FileAt(c, p, q, a.data[0]) {
      FoundFile(c, p, q, a.data[0]);
      assert WellFormedApp(c.model.apps[p]) && WellFormedFile(c.model.apps[p].files[q]);
      hide FindFile, FileAt, WellFormedApp, Sound, SettingsAnswer;
      SettingsDecode(c.model.apps[p].files[q].settings);
    }
    if a.data != [] && NoFileAt(c, p, a.data[0]) { FoundNone(c, p, a.data[0]); }
  }

  lemma SettingsDecode(s: Settings)
    requires s.access < 65536 && s.word < Word32
    ensures var b := SettingsAnswer(s);
            && |b| == 8 && b[0] == s.kind && b[1] == s.comm && b[2] as nat + 256 * b[3] as nat == s.access
            && b[4] as nat + 256 * b[5] as nat + 65536 * b[6] as nat == s.word % 0x1000000
            && b[7] as nat == if s.kind == 2 then s.word / 0x1000000 else 0
  {
    Le16Back(s.access);
    Bytes32(s.word);
    Bytes32(s.word % 0x1000000);
    hide Le16, Le32;
    Le16Parts(s.access);
  }

  lemma Le16Parts(n: nat)
    requires n < 65536
    ensures Le16(n)[0] as nat + 256 * Le16(n)[1] as nat == n
  {
  }

  lemma Bytes32(n: nat)
    requires n < Word32
    ensures var b := Le32(n);
            b[0] as nat + 256 * b[1] as nat + 65536 * b[2] as nat == n % 0x1000000 && b[3] as nat == n / 0x1000000
  {
    var x := n / 256;
    var y := x / 256;
    var z := y / 256;
    assert n == 256 * x + n % 256 && x == 256 * y + x % 256 && y == 256 * z + y % 256 && z < 256;
    assert n == 0x1000000 * z + (n % 256 + 256 * (x % 256) + 65536 * (y % 256));
  }

  /** GET_VALUE gives the first four bytes of a value file the reader may read. */
  lemma ValueAnswered(c: Card, a: Command, p: nat, q: nat)
    requires Sound(c) && Native(a, 0x6C)
    ensures OnApdu(c, a).card == c
    ensures NoneChosen(c) ==> OnApdu(c, a).rx == [0x91, 0x9D]
    ensures Chosen(c, p) && a.data == [] ==> OnApdu(c, a).rx == [0x91, 0x7E]
    ensures a.data != [] && NoFileAt(c, p, a.data[0]) ==> OnApdu(c, a).rx == [0x91, 0xF0]
    ensures a.data != [] && FileAt(c, p, q, a.data[0]) ==>
              var f, rx := c.model.apps[p].files[q], OnApdu(c, a).rx;
              rx == if f.settings.kind != 2 then [0x91, 0x1C]
                    else if f.settings.comm != 0 && c.auth != Authenticated then [0x91, 0xAE]
                    else if |f.data| < 4 then [0x91, 0xBE] else f.data[..4] + Ok
  {
    hide FindFile, GetVersion, AppIds, Le32, FileIdsAnswer, SelectApplication, GetFileSettings, ReadData, ReadRecords;
    if a.data != [] && FileAt(c, p, q, a.data[0]) { FoundFile(c, p, q, a.data[0]); }
    if a.data != [] && NoFileAt(c, p, a.data[0]) { FoundNone(c, p, a.data[0]); }
  }

  function Number(d: seq<byte>, i: nat): nat
    requires i + 3 <= |d|
  { d[i] as nat + 256 * d[i + 1] as nat + 65536 * d[i + 2] as nat }

  /** READ_DATA and READ_RECORDS are refused, with nothing changed, exactly in these cases, in this order;
      otherwise at most 253 bytes are sent, and 91 00 or 91 AF behind them. */
  lemma ReadAnswered(c: Card, a: Command, p: nat, q: nat)
    requires Sound(c) && (Native(a, 0xBD) || Native(a, 0xBB))
    ensures NoneChosen(c) ==> OnApdu(c, a) == Turn(c, [0x91, 0x9D])
    ensures Chosen(c, p) && |a.data| < 7 ==> OnApdu(c, a) == Turn(c, [0x91, 0x7E])
    ensures |a.data| >= 7 && NoFileAt(c, p, a.data[0]) ==> OnApdu(c, a) == Turn(c, [0x91, 0xF0])
    ensures |a.data| >= 7 && FileAt(c, p, q, a.data[0]) ==>
              var f, t := c.model.apps[p].files[q], OnApdu(c, a);
              if a.ins == 0xBB && f.settings.kind != 3 && f.settings.kind != 4 then t == Turn(c, [0x91, 0x1C])
              else if f.settings.comm != 0 && c.auth != Authenticated then t == Turn(c, [0x91, 0xAE])
              else if Number(a.data, 1) + Number(a.data, 4) > |f.data| then t == Turn(c, [0x91, 0xBE])
              else var n := |t.rx| - 2;
                   n <= 253 && (t.rx[n..] == Ok || t.rx[n..] == [0x91, 0xAF]) && t.card.auth == c.auth && t.card.selected == c.selected
  {
    hide FindFile, ReadFrom, DataStatus, GetVersion, AppIds, Le32, FileIdsAnswer, SelectApplication, GetValue, GetFileSettings, Number;
    if |a.data| >= 7 && FileAt(c, p, q, a.data[0]) {
      FoundFile(c, p, q, a.data[0]);
      SentShape(c, c.model.apps[p].files[q], a, if a.ins == 0xBD then FileData else Records);
    }
    if |a.data| >= 7 && NoFileAt(c, p, a.data[0]) { FoundNone(c, p, a.data[0]); }
  }

  lemma SentShape(c: Card, f: File, a: Command, kind: Pending)
    requires |a.data| >= 7
    ensures var t := ReadFrom(c, f, a, kind);
            if Number(a.data, 1) + Number(a.data, 4) > |f.data| then t == Turn(c, [0x91, 0xBE])
            else var n := |t.rx| - 2;
                 n <= 253 && (t.rx[n..] == Ok || t.rx[n..] == [0x91, 0xAF]) && t.card.auth == c.auth && t.card.selected == c.selected
  {
    hide Fetch;
  }

  // ---------- selection and authentication ----------

  predicate FirstApp(c: Card, p: nat, id: seq<byte>) {
    p < |c.model.apps| && c.model.apps[p].id == id && forall j :: 0 <= j < p ==> c.model.apps[j].id != id
  }

  predicate NoApp(c: Card, id: seq<byte>) { forall j :: 0 <= j < |c.model.apps| ==> c.model.apps[j].id != id }

  lemma {:induction false} FindAppFirst(apps: seq<App>, id: seq<byte>)
    ensures var r := FindApp(apps, id);
            && (r.Some? ==> apps[r.value].id == id && forall j :: 0 <= j < r.value ==> apps[j].id != id)
            && (r.None? ==> forall j :: 0 <= j < |apps| ==> apps[j].id != id)
    decreases |apps|
  {
    if apps != [] && apps[0].id != id {
      FindAppFirst(apps[1..], id);
      assert forall j :: 0 < j < |apps| ==> apps[j] == apps[1..][j - 1];
    }
  }

  /** SELECT_APPLICATION starts a new session in the first application with the identifier, or in none. */
  lemma SelectAnswered(c: Card, a: Command, p: nat)
    requires Sound(c) && Native(a, 0x5A)
    ensures |a.data| < 3 ==> OnApdu(c, a) == Turn(c, [0x91, 0x7E])
    ensures |a.data| >= 3 ==>
              var t := OnApdu(c, a);
              && t.card == c.(auth := Idle, pending := Nothing, frame := 0, selected := t.card.selected)
              && (FirstApp(c, p, a.data[..3]) ==> t.rx == Ok && t.card.selected == Some(p))
              && (NoApp(c, a.data[..3]) ==> t.rx == [0x91, 0xA0] && t.card.selected == None)
  {
    if |a.data| >= 3 {
      hide FindApp;
      FindAppFirst(c.model.apps, a.data[..3]);
      if FirstApp(c, p, a.data[..3]) {
        var r := FindApp(c.model.apps, a.data[..3]);
        assert r.Some? && !(r.value < p) && !(p < r.value);
      }
    }
  }

  /** Both authentication commands begin exactly on a card whose master key is not zero. */
  lemma AuthenticateAnswered(c: Card, a: Command)
    requires Sound(c) && (Native(a, 0xAA) || Native(a, 0x71))
    ensures OnApdu(c, a) == if c.model.masterKey == Zeroes(16) then Turn(c, [0x91, 0xAE])
                            else Turn(c.(auth := Step1), [0xAA, 0xBB, 0xCC, 0xDD, 0x91, 0xAF])
  {
    var key := c.model.masterKey;
    if forall i :: 0 <= i < |key| ==> key[i] == 0 { assert key == Zeroes(16); }
  }

  /** Anything else, and a continuation of nothing, is refused. */
  lemma OtherAnswered(c: Card, a: Command)
    requires Sound(c)
    requires a.cla != 0x90 || a.ins !in {0x60, 0x6E, 0x45, 0x6A, 0x6F, 0xF5, 0x64, 0x5A, 0xBD, 0x6C, 0xBB, 0xAA, 0x71, 0xAF}
             || (a.ins == 0xAF && c.pending == Nothing)
    ensures OnApdu(c, a) == Turn(c, [0x91, 0x1C])
  {
  }

  // ---------- any run ----------

  function After(c: Card, run: seq<Command>): (r: Card)
    requires Sound(c)
    ensures Sound(r)
  {
    if run == [] then c
    else
      var before := After(c, run[..|run| - 1]);
      Answered(before, run[|run| - 1]);
      OnApdu(before, run[|run| - 1]).card
  }

  lemma AuthStep(c: Card, a: Command)
    requires Sound(c) && c.auth != Authenticated
    ensures OnApdu(c, a).card.auth != Authenticated
  {
    hide DataStatus, SelectedApp, FindFile, FindApp, Fetch, Le32, AppIds, FileIdsAnswer, SettingsAnswer, VersionBytes;
  }

  /** No run of commands authenticates: there is no second step. */
  lemma {:induction false} NeverAuthenticated(c: Card, run: seq<Command>)
    requires Sound(c) && c.auth != Authenticated
    ensures After(c, run).auth != Authenticated
    decreases |run|
  {
    if run != [] {
      hide OnApdu, Sound;
      NeverAuthenticated(c, run[..|run| - 1]);
      AuthStep(After(c, run[..|run| - 1]), run[|run| - 1]);
    }
  }

  /** So a file that is not plain is never read, whatever was sent before. */
  lemma SealedFilesStaySealed(c: Card, run: seq<Command>, d: Card, a: Command, p: nat, q: nat)
    requires Sound(c) && c.auth != Authenticated && d == After(c, run) && Native(a, 0xBD) && |a.data| >= 7
    requires FileAt(d, p, q, a.data[0]) && d.model.apps[p].files[q].settings.comm != 0
    ensures OnApdu(d, a) == Turn(d, [0x91, 0xAE])
  {
    hide OnApdu, Sound, After;
    NeverAuthenticated(c, run);
    ReadAnswered(d, a, p, q);
  }
}
