/** The DESFire listener (desfire_listener.c): native commands wrapped in APDUs, answers that
    continue over additional frames. */
module DesfireCard {
  import opened Bytes
  import opened Apdu
  import opened Desfire

  datatype Pending = Nothing | Version | FileData | Records

  datatype Auth = Idle | Step1 | Step2 | Authenticated

  /** The listener's static variables.  beyond stands for memory: what lies at a position past the
      end of a file's data.  Nothing is known about it. */
  datatype Card = Card(model: Data, auth: Auth, selected: Option<nat>, pending: Pending, frame: nat, offset: nat,
                       version: seq<byte>, beyond: (File, nat) -> byte)

  /** Invariant of every run: a version answer in progress has one or two frames behind it, and the
      offset of an unfinished answer is a uint16_t. */
  predicate Sound(c: Card) {
    Desfire.WellFormed(c.model) && |c.version| == 28 && c.frame <= 2 && (c.pending == Version ==> 1 <= c.frame) &&
    c.offset < 65536
  }

  datatype Turn = Turn(card: Card, rx: seq<byte>)

  function SessionReset(c: Card): Card { c.(auth := Idle, selected := None, pending := Nothing, frame := 0) }

  function Status(sw2: byte): seq<byte> { [0x91, sw2] }

  /** desfire_listener_send_data_status. */
  function DataStatus(data: seq<byte>, sw2: byte): (rx: seq<byte>)
    ensures 2 <= |rx| <= 255
  { if |data| > 253 then Status(0x7E) else data + Status(sw2) }

  function SelectedApp(c: Card): Option<App> {
    if c.selected.Some? && c.selected.value < |c.model.apps| then Some(c.model.apps[c.selected.value]) else None
  }

  /** desfire_listener_find_file: the first file with this id. */
  function FindFile(files: seq<File>, id: byte): (r: Option<nat>)
    ensures r.Some? ==> r.value < |files| && files[r.value].id == id && forall j :: 0 <= j < r.value ==> files[j].id != id
    ensures r.None? ==> forall j :: 0 <= j < |files| ==> files[j].id != id
  {
    if files == [] then None
    else if files[0].id == id then Some(0)
    else
      var r := FindFile(files[1..], id);
      if r.None? then None else Some(r.value + 1)
  }

  /** desfire_build_version_bytes. */
  function VersionBytes(d: Data): (v: seq<byte>)
    requires Desfire.WellFormed(d)
    ensures |v| == 28
  { d.hw + d.sw + d.uid + d.batch + [d.week, d.year] }

  /** desfire_listener_cmd_get_version: frames of 7, 7 and 14 bytes. */
  function GetVersion(c: Card): Turn
    requires Sound(c)
  {
    var c := if c.pending != Version then c.(version := VersionBytes(c.model), pending := Version, frame := 0) else c;
    if c.frame < 2 then
      Turn(c.(frame := c.frame + 1), DataStatus(c.version[7 * c.frame..7 * c.frame + 7], 0xAF))
    else Turn(c.(pending := Nothing), DataStatus(c.version[14..], 0x00))
  }

  function AppIds(apps: seq<App>): seq<byte> { if apps == [] then [] else apps[0].id + AppIds(apps[1..]) }
  function FileIds(files: seq<File>): (ids: seq<byte>)
    ensures |ids| == |files|
  { if files == [] then [] else [files[0].id] + FileIds(files[1..]) }

  /** The answer to GET_FILE_SETTINGS; record sizes take three bytes here. */
  function SettingsAnswer(s: Settings): seq<byte> {
    [s.kind, s.comm] + Le16(s.access) + (if s.kind == 2 then Le32(s.word) else Le32(s.word % 0x1000000))
  }

  /** n bytes from a position of a file's data, and of what lies beyond it. */
  function Fetch(f: File, from: nat, n: nat, beyond: (File, nat) -> byte): (r: seq<byte>)
    ensures |r| == n
  { seq(n, i requires 0 <= i < n => if from + i < |f.data| then f.data[from + i] else beyond(f, from + i)) }

  function Field24(a: byte, b: byte, c: byte): (n: nat)
    ensures n < 0x1000000
  { a as nat + 256 * b as nat + 65536 * c as nat }

  predicate Readable(c: Card, f: File) { f.settings.comm == 0 || c.auth == Authenticated }

  /** Where an answer starts and how much is left to send: the request's own offset and length, or
      those of the unfinished answer, whose length is a uint32_t difference. */
  function StartOf(c: Card, offset: nat, kind: Pending): nat { if c.pending == kind then c.offset else offset }

  function WantOf(c: Card, f: File, length: nat, kind: Pending): nat {
    if c.pending == kind then (|f.data| - c.offset) % Word32 else length
  }

  /** The common part of READ_DATA and READ_RECORDS once a file is found. */
  function ReadFrom(c: Card, f: File, a: Command, kind: Pending): Turn
    requires |a.data| >= 7
  {
    var offset, length := Field24(a.data[1], a.data[2], a.data[3]), Field24(a.data[4], a.data[5], a.data[6]);
    if offset + length > |f.data| then Turn(c, Status(0xBE))
    else
      var from, want := StartOf(c, offset, kind), WantOf(c, f, length, kind);
      if want > 253 then
        Turn(c.(pending := kind, offset := (from + 253) % 65536), DataStatus(Fetch(f, from, 253, c.beyond), 0xAF))
      else
        Turn(c.(pending := Nothing, offset := if c.pending == kind then c.offset else offset % 65536),
             DataStatus(Fetch(f, from, want, c.beyond), 0x00))
  }

  function ReadData(c: Card, a: Command): Turn {
    var app := SelectedApp(c);
    if app.None? then Turn(c, Status(0x9D))
    else if |a.data| < 7 then Turn(c, Status(0x7E))
    else
      var i := FindFile(app.value.files, a.data[0]);
      if i.None? then Turn(c, Status(0xF0))
      else if !Readable(c, app.value.files[i.value]) then Turn(c, Status(0xAE))
      else ReadFrom(c, app.value.files[i.value], a, FileData)
  }

  function ReadRecords(c: Card, a: Command): Turn {
    var app := SelectedApp(c);
    if app.None? then Turn(c, Status(0x9D))
    else if |a.data| < 7 then Turn(c, Status(0x7E))
    else
      var i := FindFile(app.value.files, a.data[0]);
      if i.None? then Turn(c, Status(0xF0))
      else
        var f := app.value.files[i.value];
        if f.settings.kind != 3 && f.settings.kind != 4 then Turn(c, Status(0x1C))
        else if !Readable(c, f) then Turn(c, Status(0xAE))
        else ReadFrom(c, f, a, Records)
  }

  function GetValue(c: Card, a: Command): Turn {
    var app := SelectedApp(c);
    if app.None? then Turn(c, Status(0x9D))
    else if |a.data| < 1 then Turn(c, Status(0x7E))
    else
      var i := FindFile(app.value.files, a.data[0]);
      if i.None? then Turn(c, Status(0xF0))
      else
        var f := app.value.files[i.value];
        if f.settings.kind != 2 then Turn(c, Status(0x1C))
        else if !Readable(c, f) then Turn(c, Status(0xAE))
        else if |f.data| < 4 then Turn(c, Status(0xBE))
        else Turn(c, DataStatus(f.data[..4], 0x00))
  }

  function GetFileSettings(c: Card, a: Command): Turn {
    var app := SelectedApp(c);
    if app.None? then Turn(c, Status(0xA0))
    else if |a.data| < 1 then Turn(c, Status(0x7E))
    else
      var i := FindFile(app.value.files, a.data[0]);
      if i.None? then Turn(c, Status(0xF0))
      else if app.value.files[i.value].settings.kind > 4 then Turn(c, Status(0x1C))
      else Turn(c, DataStatus(SettingsAnswer(app.value.files[i.value].settings), 0x00))
  }

  /** The first application with this id. */
  function FindApp(apps: seq<App>, id: seq<byte>): (r: Option<nat>)
    ensures r.Some? ==> r.value < |apps| && apps[r.value].id == id
  {
    if apps == [] then None
    else if apps[0].id == id then Some(0)
    else
      var r := FindApp(apps[1..], id);
      if r.None? then None else Some(r.value + 1)
  }

  function SelectApplication(c: Card, a: Command): Turn {
    if |a.data| < 3 then Turn(c, Status(0x7E))
    else
      var c := SessionReset(c);
      var i := FindApp(c.model.apps, a.data[..3]);
      if i.None? then Turn(c, Status(0xA0)) else Turn(c.(selected := i), Status(0x00))
  }

  function GetKeySettings(c: Card): Turn {
    var app := SelectedApp(c);
    Turn(c, DataStatus(if app.Some? then [app.value.keySettings, (|app.value.keys| % 256) as byte]
                       else [c.model.masterKeySettings, 0x0F], 0x00))
  }

  function Authenticate(c: Card): Turn {
    if forall i :: 0 <= i < |c.model.masterKey| ==> c.model.masterKey[i] == 0 then Turn(c, Status(0xAE))
    else Turn(c.(auth := Step1), DataStatus([0xAA, 0xBB, 0xCC, 0xDD], 0xAF))
  }

  function FileIdsAnswer(c: Card): seq<byte> {
    var app := SelectedApp(c);
    if app.None? then Status(0xA0) else DataStatus(FileIds(app.value.files), 0x00)
  }

  function KeyVersionAnswer(a: Command): seq<byte> {
    if |a.data| < 1 then Status(0x7E) else if a.data[0] != 0 then Status(0x40) else DataStatus([0x00], 0x00)
  }

  /** desfire_listener_on_apdu. */
  function OnApdu(c: Card, a: Command): Turn
    requires Sound(c)
  {
    if a.cla != 0x90 then Turn(c, Status(0x1C))
    else if a.ins == 0x60 then GetVersion(c)
    else if a.ins == 0x6E then Turn(c, DataStatus(Le32(c.model.freeMemory), 0x00))
    else if a.ins == 0x45 then GetKeySettings(c)
    else if a.ins == 0x6A then Turn(c, DataStatus(AppIds(c.model.apps), 0x00))
    else if a.ins == 0x6F then Turn(c, FileIdsAnswer(c))
    else if a.ins == 0xF5 then GetFileSettings(c, a)
    else if a.ins == 0x64 then Turn(c, KeyVersionAnswer(a))
    else if a.ins == 0x5A then SelectApplication(c, a)
    else if a.ins == 0xBD then ReadData(c, a)
    else if a.ins == 0x6C then GetValue(c, a)
    else if a.ins == 0xBB then ReadRecords(c, a)
    else if a.ins == 0xAA || a.ins == 0x71 then Authenticate(c)
    else if a.ins == 0xAF then
      if c.pending == Version then GetVersion(c)
      else if c.pending == FileData then ReadData(c, a)
      else if c.pending == Records then ReadRecords(c, a)
      else Turn(c, Status(0x1C))
    else Turn(c, Status(0x1C))
  }

  function OnSelect(c: Card): Turn { Turn(SessionReset(c), [0x90, 0x00]) }

  /** One answer of 2 to 255 bytes, the image unchanged and the invariant kept. */
  predicate Fine(c: Card, t: Turn) { 2 <= |t.rx| <= 255 && Sound(t.card) && t.card.model == c.model }

  lemma GetVersionFine(c: Card) requires Sound(c) ensures Fine(c, GetVersion(c)) { hide DataStatus, VersionBytes; }
  lemma ReadFromFine(c: Card, f: File, a: Command, kind: Pending)
    requires Sound(c) && |a.data| >= 7 && kind != Version
    ensures Fine(c, ReadFrom(c, f, a, kind))
  {
    hide DataStatus, Fetch;
  }
  lemma ReadDataFine(c: Card, a: Command)
    requires Sound(c)
    ensures Fine(c, ReadData(c, a)) && Fine(c, ReadRecords(c, a))
  {
    hide ReadFrom, FindFile, SelectedApp, Readable;
    var app := SelectedApp(c);
    if app.Some? && |a.data| >= 7 {
      var i := FindFile(app.value.files, a.data[0]);
      if i.Some? {
        ReadFromFine(c, app.value.files[i.value], a, FileData);
        ReadFromFine(c, app.value.files[i.value], a, Records);
      }
    }
  }
  lemma QueriesFine(c: Card, a: Command)
    requires Sound(c)
    ensures Fine(c, GetValue(c, a)) && Fine(c, GetFileSettings(c, a)) && Fine(c, GetKeySettings(c))
  {
    hide DataStatus, FindFile, SelectedApp, Readable, SettingsAnswer;
  }
  lemma SelectingFine(c: Card, a: Command)
    requires Sound(c)
    ensures Fine(c, SelectApplication(c, a)) && Fine(c, Authenticate(c))
  {
    hide DataStatus, FindApp;
  }

  /** Every command gets one answer of 2 to 255 bytes, the image never changes and the invariant
      is kept. */
  lemma Answered(c: Card, a: Command)
    requires Sound(c)
    ensures Fine(c, OnApdu(c, a))
  {
    hide DataStatus, SelectedApp, AppIds, FileIds, Le32;
    hide GetVersion, ReadData, ReadRecords, GetValue, GetFileSettings, GetKeySettings, SelectApplication, Authenticate;
    GetVersionFine(c);
    ReadDataFine(c, a);
    QueriesFine(c, a);
    SelectingFine(c, a);
  }

  // ---------- the code ----------

  class Listener {
    var model: Data
    var auth: Auth
    var selected: Option<nat>
    var pending: Pending
    var frame: nat
    var offset: nat
    var version: seq<byte>
    const beyond: (File, nat) -> byte

    function Value(): Card
      reads this
    { Card(model, auth, selected, pending, frame, offset, version, beyond) }

    /** desfire_listener_init. */
    constructor (image: Data, memory: (File, nat) -> byte)
      requires Desfire.WellFormed(image)
      ensures Sound(Value()) && model == image && pending == Nothing && selected == None
    {
      model, auth, selected, pending, frame := image, Idle, None, Nothing, 0;
      offset, version, beyond := 0, Zeroes(28), memory;
    }

    method Reset()
      modifies this
      ensures Value() == SessionReset(old(Value()))
    {
      auth, selected, pending, frame := Idle, None, Nothing, 0;
    }

    method CmdGetVersion() returns (rx: seq<byte>)
      requires Sound(Value())
      modifies this
      ensures Turn(Value(), rx) == GetVersion(old(Value()))
    {
      hide DataStatus, VersionBytes;
      if pending != Version {
        version := VersionBytes(model);
        pending, frame := Version, 0;
      }
      var length, sw2 := if frame < 2 then 7 else 14, if frame < 2 then 0xAF else 0x00;
      assert frame == 2 ==> version[14..28] == version[14..];
      rx := DataStatus(version[7 * frame..7 * frame + length], sw2);
      if sw2 == 0x00 { pending := Nothing; } else { frame := frame + 1; }
    }

    /** desfire_listener_cmd_get_application_ids: the response buffer is filled id by id, and an id
        that no longer fits ends it. */
    method CmdGetApplicationIds() returns (rx: seq<byte>)
      requires Desfire.WellFormed(model)
      ensures rx == DataStatus(AppIds(model.apps), 0x00)
    {
      hide DataStatus, WellFormedApp, AppIds;
      var out := [];
      AppIdsNone(model.apps);
      for i := 0 to |model.apps|
        invariant out == AppIds(model.apps[..i]) && |out| == 3 * i <= 253
      {
        AppIdsMore(model.apps, i);
        if |out| + 3 > 253 {
          TooManyIds(model.apps, i);
          return Status(0x7E);
        }
        out := out + model.apps[i].id;
      }
      assert model.apps[..|model.apps|] == model.apps;
      return DataStatus(out, 0x00);
    }

    method CmdGetFileIds() returns (rx: seq<byte>)
      ensures rx == FileIdsAnswer(Value())
    {
      hide DataStatus, FileIds;
      var app := SelectedApp(Value());
      if app.None? { return Status(0xA0); }
      var files, out := app.value.files, [];
      FileIdsNone(files);
      for i := 0 to |files|
        invariant out == FileIds(files[..i]) && |out| == i <= 253
      {
        FileIdsMore(files, i);
        if |out| + 1 > 253 {
          TooLong(FileIds(files));
          return Status(0x7E);
        }
        out := out + [files[i].id];
      }
      assert files[..|files|] == files;
      return DataStatus(out, 0x00);
    }

    method Find(files: seq<File>, id: byte) returns (r: Option<nat>)
      ensures r == FindFile(files, id)
    {
      for i := 0 to |files|
        invariant forall j :: 0 <= j < i ==> files[j].id != id
      {
        if files[i].id == id { return Some(i); }
      }
      return None;
    }

    method CmdGetFileSettings(a: Command) returns (rx: seq<byte>)
      ensures Turn(Value(), rx) == GetFileSettings(Value(), a)
    {
      hide DataStatus, FindFile, SettingsAnswer;
      var app := SelectedApp(Value());
      if app.None? { return Status(0xA0); }
      if |a.data| < 1 { return Status(0x7E); }
      var i := Find(app.value.files, a.data[0]);
      if i.None? { return Status(0xF0); }
      var s := app.value.files[i.value].settings;
      if s.kind > 4 { return Status(0x1C); }
      return DataStatus(SettingsAnswer(s), 0x00);
    }

    method CmdGetValue(a: Command) returns (rx: seq<byte>)
      ensures Turn(Value(), rx) == GetValue(Value(), a)
    {
      hide DataStatus, FindFile;
      var app := SelectedApp(Value());
      if app.None? { return Status(0x9D); }
      if |a.data| < 1 { return Status(0x7E); }
      var i := Find(app.value.files, a.data[0]);
      if i.None? { return Status(0xF0); }
      var f := app.value.files[i.value];
      if f.settings.kind != 2 { return Status(0x1C); }
      if f.settings.comm != 0 && auth != Authenticated { return Status(0xAE); }
      if |f.data| < 4 { return Status(0xBE); }
      return DataStatus(f.data[..4], 0x00);
    }

    method CmdGetKeySettings() returns (rx: seq<byte>)
      ensures Turn(Value(), rx) == GetKeySettings(Value())
    {
      hide DataStatus;
      var app := SelectedApp(Value());
      var buf := if app.Some? then [app.value.keySettings, (|app.value.keys| % 256) as byte]
                 else [model.masterKeySettings, 0x0F];
      return DataStatus(buf, 0x00);
    }

    /** desfire_listener_cmd_authenticate: only with a master key that is not all zero. */
    method CmdAuthenticate() returns (rx: seq<byte>)
      modifies this`auth
      ensures Turn(Value(), rx) == Authenticate(old(Value()))
    {
      hide DataStatus;
      var hasKey := false;
      for i := 0 to |model.masterKey|
        invariant hasKey <==> exists j :: 0 <= j < i && model.masterKey[j] != 0
      {
        if model.masterKey[i] != 0 { hasKey := true; }
      }
      if !hasKey { return Status(0xAE); }
      auth := Step1;
      return DataStatus([0xAA, 0xBB, 0xCC, 0xDD], 0xAF);
    }

    method CmdSelectApplication(a: Command) returns (rx: seq<byte>)
      modifies this
      ensures Turn(Value(), rx) == SelectApplication(old(Value()), a)
    {
      if |a.data| < 3 { return Status(0x7E); }
      Reset();
      for i := 0 to |model.apps|
        invariant model == old(model) && Value() == SessionReset(old(Value()))
        invariant FindApp(model.apps, a.data[..3]) ==
          var r := FindApp(model.apps[i..], a.data[..3]);
          if r.None? then None else Some(r.value + i)
      {
        assert model.apps[i..][0] == model.apps[i] && model.apps[i..][1..] == model.apps[i + 1..];
        if a.data[..3] == model.apps[i].id {
          selected := Some(i);
          return Status(0x00);
        }
      }
      return Status(0xA0);
    }

    /** READ_DATA and READ_RECORDS from the file on. */
    method CmdReadFrom(f: File, a: Command, kind: Pending) returns (rx: seq<byte>)
      requires |a.data| >= 7
      modifies this
      ensures Turn(Value(), rx) == ReadFrom(old(Value()), f, a, kind)
    {
      hide DataStatus, Fetch, Field24;
      var at, length := Field24(a.data[1], a.data[2], a.data[3]), Field24(a.data[4], a.data[5], a.data[6]);
      if at + length > |f.data| { return Status(0xBE); }
      if pending == kind {
        at := offset;
        length := (|f.data| - at) % Word32;
      } else {
        offset := at % 65536;
      }
      if length > 253 {
        pending, offset := kind, (at + 253) % 65536;
        return DataStatus(Fetch(f, at, 253, beyond), 0xAF);
      }
      pending := Nothing;
      return DataStatus(Fetch(f, at, length, beyond), 0x00);
    }

    method CmdReadData(a: Command) returns (rx: seq<byte>)
      modifies this
      ensures Turn(Value(), rx) == ReadData(old(Value()), a)
    {
      hide ReadFrom, FindFile;
      var app := SelectedApp(Value());
      if app.None? { return Status(0x9D); }
      if |a.data| < 7 { return Status(0x7E); }
      var i := Find(app.value.files, a.data[0]);
      if i.None? { return Status(0xF0); }
      var f := app.value.files[i.value];
      if f.settings.comm != 0 && auth != Authenticated { return Status(0xAE); }
      rx := CmdReadFrom(f, a, FileData);
    }

    method CmdReadRecords(a: Command) returns (rx: seq<byte>)
      modifies this
      ensures Turn(Value(), rx) == ReadRecords(old(Value()), a)
    {
      hide ReadFrom, FindFile;
      var app := SelectedApp(Value());
      if app.None? { return Status(0x9D); }
      if |a.data| < 7 { return Status(0x7E); }
      var i := Find(app.value.files, a.data[0]);
      if i.None? { return Status(0xF0); }
      var f := app.value.files[i.value];
      if f.settings.kind != 3 && f.settings.kind != 4 { return Status(0x1C); }
      if f.settings.comm != 0 && auth != Authenticated { return Status(0xAE); }
      rx := CmdReadFrom(f, a, Records);
    }

    method CmdGetKeyVersion(a: Command) returns (rx: seq<byte>)
      ensures rx == KeyVersionAnswer(a)
    {
      if |a.data| < 1 { return Status(0x7E); }
      if a.data[0] != 0 { return Status(0x40); }
      return DataStatus([0x00], 0x00);
    }

    /** desfire_listener_on_apdu. */
    method Handle(a: Command) returns (rx: seq<byte>)
      requires Sound(Value())
      modifies this
      ensures Turn(Value(), rx) == OnApdu(old(Value()), a)
      ensures Fine(old(Value()), Turn(Value(), rx))
    {
      hide DataStatus, SelectedApp, AppIds, FileIdsAnswer, KeyVersionAnswer, Fine, VersionBytes, Le32;
      hide GetVersion, ReadData, ReadRecords, GetValue, GetFileSettings, GetKeySettings, SelectApplication, Authenticate;
      Answered(Value(), a);
      if a.cla != 0x90 { return Status(0x1C); }
      if a.ins == 0x60 { rx := CmdGetVersion(); }
      else if a.ins == 0x6E { rx := DataStatus(Le32(model.freeMemory), 0x00); }
      else if a.ins == 0x45 { rx := CmdGetKeySettings(); }
      else if a.ins == 0x6A { rx := CmdGetApplicationIds(); }
      else if a.ins == 0x6F { rx := CmdGetFileIds(); }
      else if a.ins == 0xF5 { rx := CmdGetFileSettings(a); }
      else if a.ins == 0x64 { rx := CmdGetKeyVersion(a); }
      else if a.ins == 0x5A { rx := CmdSelectApplication(a); }
      else if a.ins == 0xBD { rx := CmdReadData(a); }
      else if a.ins == 0x6C { rx := CmdGetValue(a); }
      else if a.ins == 0xBB { rx := CmdReadRecords(a); }
      else if a.ins == 0xAA || a.ins == 0x71 { rx := CmdAuthenticate(); }
      else if a.ins == 0xAF {
        if pending == Version { rx := CmdGetVersion(); }
        else if pending == FileData { rx := CmdReadData(a); }
        else if pending == Records { rx := CmdReadRecords(a); }
        else { rx := Status(0x1C); }
      }
      else { rx := Status(0x1C); }
    }
  }

  // ---------- identifiers in the response buffer ----------

  lemma TooLong(data: seq<byte>)
    requires |data| > 253
    ensures DataStatus(data, 0x00) == Status(0x7E)
  {
  }

  lemma FileIdsNone(files: seq<File>)
    ensures FileIds(files[..0]) == []
  {
  }

  lemma {:induction false} FileIdsMore(files: seq<File>, i: nat)
    requires i < |files|
    ensures FileIds(files[..i + 1]) == FileIds(files[..i]) + [files[i].id]
    decreases |files|
  {
    if i > 0 {
      FileIdsMore(files[1..], i - 1);
      assert files[..i + 1][1..] == files[1..][..i] && files[..i][1..] == files[1..][..i - 1];
    } else {
      assert files[..1][1..] == [] && files[..0] == [];
    }
  }

  lemma AppIdsNone(apps: seq<App>)
    ensures AppIds(apps[..0]) == []
  {
  }

  lemma {:induction false} AppIdsMore(apps: seq<App>, i: nat)
    requires i < |apps| && forall j :: 0 <= j < |apps| ==> WellFormedApp(apps[j])
    ensures AppIds(apps[..i + 1]) == AppIds(apps[..i]) + apps[i].id && |apps[i].id| == 3
    decreases |apps|
  {
    if i > 0 {
      AppIdsMore(apps[1..], i - 1);
      assert apps[..i + 1][1..] == apps[1..][..i] && apps[..i][1..] == apps[1..][..i - 1];
    } else {
      assert apps[..1][1..] == [] && apps[..0] == [];
    }
  }

  lemma {:induction false} AppIdsLength(apps: seq<App>)
    requires forall j :: 0 <= j < |apps| ==> WellFormedApp(apps[j])
    ensures |AppIds(apps)| == 3 * |apps|
    decreases |apps|
  {
    if apps != [] { AppIdsLength(apps[1..]); }
  }

  lemma TooManyIds(apps: seq<App>, i: nat)
    requires i < |apps| && 3 * i + 3 > 253 && forall j :: 0 <= j < |apps| ==> WellFormedApp(apps[j])
    ensures DataStatus(AppIds(apps), 0x00) == Status(0x7E)
  {
    AppIdsLength(apps);
  }
}
