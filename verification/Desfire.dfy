/** The DESFire card image and its blob (desfire.c).

    The blob is written with one idea of a file's size and read with another: the reader asks for
    twelve bytes before a file that takes eleven plus its data.  So a blob is read back exactly
    when it does not end in an empty file, and the lemma RoundTrip says so both ways. */
module Desfire {
  import opened Bytes

  /** Configured limits: CONFIG_NFC_DESFIRE_MAX_APPS, _MAX_FILES_PER_APP, _MAX_FILE_SIZE. */
  datatype Limits = Limits(apps: nat, files: nat, size: nat)

  predicate ValidLimits(lim: Limits) { 1 <= lim.apps <= 4 && 1 <= lim.files <= 8 && 16 <= lim.size <= 256 }

  const MaxKeys := 14

  /** desfire_file_settings_t: word is the first four bytes of its union, which is the size of a
      data file, the lower limit of a value file or the record size. */
  datatype Settings = Settings(kind: byte, comm: byte, access: nat, word: nat)

  datatype File = File(id: byte, settings: Settings, data: seq<byte>)

  datatype App = App(id: seq<byte>, keySettings: byte, keys: seq<seq<byte>>, files: seq<File>)

  datatype Data = Data(hw: seq<byte>, sw: seq<byte>, uid: seq<byte>, batch: seq<byte>, week: byte, year: byte,
                       freeMemory: nat, masterKey: seq<byte>, masterKeySettings: byte, apps: seq<App>)

  const Word32 := 0x1_0000_0000

  predicate WellFormedFile(f: File) {
    f.settings.access < 65536 && f.settings.word < Word32 && |f.data| < 65536
  }

  predicate WellFormedApp(a: App) {
    |a.id| == 3 && |a.keys| < 256 && |a.files| < 256 &&
    (forall i :: 0 <= i < |a.keys| ==> |a.keys[i]| == 16) && (forall i :: 0 <= i < |a.files| ==> WellFormedFile(a.files[i]))
  }

  predicate WellFormed(d: Data) {
    |d.hw| == |d.sw| == |d.uid| == 7 && |d.batch| == 5 && d.freeMemory < Word32 && |d.masterKey| == 16 &&
    |d.apps| < 256 && forall i :: 0 <= i < |d.apps| ==> WellFormedApp(d.apps[i])
  }

  // ---------- little-endian fields ----------

  function Le32(n: nat): (b: seq<byte>)
    ensures |b| == 4
  { [Lo(n), Lo(n / 256), Lo(n / 256 / 256), Lo(n / 256 / 256 / 256)] }

  function From32(a: byte, b: byte, c: byte, d: byte): (n: nat)
    ensures n < Word32
  { a as nat + 256 * b as nat + 65536 * c as nat + 0x1000000 * d as nat }

  lemma Le32Back(n: nat)
    requires n < Word32
    ensures From32(Lo(n), Lo(n / 256), Lo(n / 256 / 256), Lo(n / 256 / 256 / 256)) == n
  {
    var a := n / 256;
    var b := a / 256;
    var c := b / 256;
    assert n == 256 * a + n % 256;
    assert a == 256 * b + a % 256;
    assert b == 256 * c + b % 256;
    assert c < 256;
  }

  // ---------- the layout ----------

  /** How much of the union a blob keeps: three bytes of a size, all of a limit, two of a record
      size. */
  function Kept(s: Settings): nat {
    if s.kind == 0 || s.kind == 1 then s.word % 0x1000000 else if s.kind == 2 then s.word else s.word % 65536
  }

  /** desfire_write_file_settings. */
  function SettingsBytes(s: Settings): (b: seq<byte>)
    requires s.access < 65536
    ensures |b| == 8
  { [s.kind, s.comm] + Le16(s.access) + Le32(Kept(s)) }

  function FileBytes(f: File): (b: seq<byte>)
    requires WellFormedFile(f)
    ensures |b| == 11 + |f.data|
  { [f.id] + SettingsBytes(f.settings) + Le16(|f.data|) + f.data }

  function FilesBytes(files: seq<File>): seq<byte>
    requires forall i :: 0 <= i < |files| ==> WellFormedFile(files[i])
  { if files == [] then [] else FileBytes(files[0]) + FilesBytes(files[1..]) }

  function KeysBytes(keys: seq<seq<byte>>): (b: seq<byte>)
    requires forall i :: 0 <= i < |keys| ==> |keys[i]| == 16
    ensures |b| == 16 * |keys|
  { if keys == [] then [] else keys[0] + KeysBytes(keys[1..]) }

  function AppHead(a: App): (b: seq<byte>)
    requires WellFormedApp(a)
    ensures |b| == 6
  { a.id + [a.keySettings, |a.keys| as byte, |a.files| as byte] }

  function AppBytes(a: App): seq<byte>
    requires WellFormedApp(a)
  { AppHead(a) + KeysBytes(a.keys) + FilesBytes(a.files) }

  function AppsBytes(apps: seq<App>): seq<byte>
    requires forall i :: 0 <= i < |apps| ==> WellFormedApp(apps[i])
  { if apps == [] then [] else AppBytes(apps[0]) + AppsBytes(apps[1..]) }

  function Header(d: Data): (b: seq<byte>)
    requires WellFormed(d)
    ensures |b| == 51
  {
    [0x01] + d.hw + d.sw + d.uid + d.batch + [d.week, d.year] + Le32(d.freeMemory) + d.masterKey
    + [d.masterKeySettings, |d.apps| as byte]
  }

  // ---------- writing ----------

  datatype Result<T> = Ok(value: T) | Invalid | NoSpace

  function PutFiles(files: seq<File>, out: seq<byte>, outMax: nat, lim: Limits): Result<seq<byte>>
    requires forall i :: 0 <= i < |files| ==> WellFormedFile(files[i])
    decreases |files|
  {
    if files == [] then Ok(out)
    else if outMax < |out| + 15 + |files[0].data| then NoSpace
    else if |files[0].data| > lim.size then Invalid
    else PutFiles(files[1..], out + FileBytes(files[0]), outMax, lim)
  }

  function PutApps(apps: seq<App>, out: seq<byte>, outMax: nat, lim: Limits): Result<seq<byte>>
    requires forall i :: 0 <= i < |apps| ==> WellFormedApp(apps[i])
    decreases |apps|
  {
    if apps == [] then Ok(out)
    else
      var a := apps[0];
      if |a.files| > lim.files || |a.keys| > MaxKeys then Invalid
      else if outMax < |out| + 6 + 16 * |a.keys| then NoSpace
      else
        var r := PutFiles(a.files, out + AppHead(a) + KeysBytes(a.keys), outMax, lim);
        if r.Ok? then PutApps(apps[1..], r.value, outMax, lim) else r
  }

  /** desfire_serialize. */
  function Serialize(d: Data, outMax: nat, lim: Limits): Result<seq<byte>>
    requires WellFormed(d)
  {
    if |d.apps| > lim.apps then Invalid else if outMax < 51 then NoSpace
    else PutApps(d.apps, Header(d), outMax, lim)
  }

  predicate FilesWithin(files: seq<File>, lim: Limits) {
    forall i :: 0 <= i < |files| ==> |files[i].data| <= lim.size
  }

  predicate AppsWithin(apps: seq<App>, lim: Limits) {
    forall i :: 0 <= i < |apps| ==> |apps[i].files| <= lim.files && |apps[i].keys| <= MaxKeys && FilesWithin(apps[i].files, lim)
  }

  lemma {:induction false} PutFilesLayout(files: seq<File>, out: seq<byte>, outMax: nat, lim: Limits)
    requires forall i :: 0 <= i < |files| ==> WellFormedFile(files[i])
    requires PutFiles(files, out, outMax, lim).Ok?
    ensures PutFiles(files, out, outMax, lim).value == out + FilesBytes(files) && FilesWithin(files, lim)
    decreases |files|
  {
    if files == [] {
      assert out + [] == out;
    } else {
      var b := FileBytes(files[0]);
      PutFilesLayout(files[1..], out + b, outMax, lim);
      assert out + (b + FilesBytes(files[1..])) == (out + b) + FilesBytes(files[1..]);
      assert forall i :: 0 < i < |files| ==> files[i] == files[1..][i - 1];
    }
  }

  lemma {:induction false} PutAppsLayout(apps: seq<App>, out: seq<byte>, outMax: nat, lim: Limits)
    requires forall i :: 0 <= i < |apps| ==> WellFormedApp(apps[i])
    requires PutApps(apps, out, outMax, lim).Ok?
    ensures PutApps(apps, out, outMax, lim).value == out + AppsBytes(apps) && AppsWithin(apps, lim)
    decreases |apps|
  {
    hide WellFormedApp, AppHead, KeysBytes, FilesBytes, PutFiles, FilesWithin;
    if apps == [] {
      assert out + [] == out;
    } else {
      var a := apps[0];
      AppParts(a);
      var head := AppHead(a) + KeysBytes(a.keys);
      assert out + AppHead(a) + KeysBytes(a.keys) == out + head;
      PutFilesLayout(a.files, out + head, outMax, lim);
      PutAppsLayout(apps[1..], out + head + FilesBytes(a.files), outMax, lim);
      assert out + (AppBytes(a) + AppsBytes(apps[1..])) == (out + head + FilesBytes(a.files)) + AppsBytes(apps[1..]);
      assert forall i :: 0 < i < |apps| ==> apps[i] == apps[1..][i - 1];
    }
  }

  lemma AppParts(a: App)
    requires WellFormedApp(a)
    ensures (forall i :: 0 <= i < |a.keys| ==> |a.keys[i]| == 16) && (forall i :: 0 <= i < |a.files| ==> WellFormedFile(a.files[i]))
    ensures |a.id| == 3 && |a.keys| < 256 && |a.files| < 256
  {
  }

  lemma SerializeLayout(d: Data, outMax: nat, lim: Limits)
    requires WellFormed(d) && Serialize(d, outMax, lim).Ok?
    ensures Serialize(d, outMax, lim).value == Header(d) + AppsBytes(d.apps)
    ensures |d.apps| <= lim.apps && AppsWithin(d.apps, lim)
  {
    hide Header;
    PutAppsLayout(d.apps, Header(d), outMax, lim);
  }

  // ---------- reading ----------

  /** desfire_read_file_settings on eight bytes. */
  function ReadSettings(b: seq<byte>): Settings
    requires |b| == 8
  {
    var word := if b[0] == 0 || b[0] == 1 then From32(b[4], b[5], b[6], 0)
                else if b[0] == 2 then From32(b[4], b[5], b[6], b[7]) else From16(b[4], b[5]);
    Settings(b[0], b[1], From16(b[2], b[3]), word)
  }

  /** A part of the blob that was read, and where the next one starts. */
  datatype Taken<T> = Taken(value: T, next: nat)

  function TakeFile(blob: seq<byte>, at: nat, lim: Limits): (r: Option<Taken<File>>)
    ensures r.Some? ==> at + 11 <= r.value.next <= |blob|
  {
    if |blob| < at + 12 then None
    else
      var len := From16(blob[at + 9], blob[at + 10]);
      if len > lim.size || |blob| < at + 11 + len then None
      else Some(Taken(File(blob[at], ReadSettings(blob[at + 1..at + 9]), blob[at + 11..at + 11 + len]), at + 11 + len))
  }

  function TakeFiles(blob: seq<byte>, at: nat, count: nat, lim: Limits): (r: Option<Taken<seq<File>>>)
    requires at <= |blob|
    ensures r.Some? ==> at <= r.value.next <= |blob|
    decreases count
  {
    if count == 0 then Some(Taken([], at))
    else
      var f := TakeFile(blob, at, lim);
      if f.None? then None
      else
        var rest := TakeFiles(blob, f.value.next, count - 1, lim);
        if rest.None? then None else Some(Taken([f.value.value] + rest.value.value, rest.value.next))
  }

  function TakeKeys(blob: seq<byte>, at: nat, count: nat): (keys: seq<seq<byte>>)
    requires at + 16 * count <= |blob|
    ensures |keys| == count
    decreases count
  { if count == 0 then [] else [blob[at..at + 16]] + TakeKeys(blob, at + 16, count - 1) }

  function TakeApp(blob: seq<byte>, at: nat, lim: Limits): (r: Option<Taken<App>>)
    ensures r.Some? ==> at <= r.value.next <= |blob|
  {
    if |blob| < at + 6 then None
    else
      var keyCount, fileCount := blob[at + 4] as nat, blob[at + 5] as nat;
      if keyCount > MaxKeys || fileCount > lim.files || |blob| < at + 6 + 16 * keyCount then None
      else
        var files := TakeFiles(blob, at + 6 + 16 * keyCount, fileCount, lim);
        if files.None? then None
        else Some(Taken(App(blob[at..at + 3], blob[at + 3], TakeKeys(blob, at + 6, keyCount), files.value.value), files.value.next))
  }

  function TakeApps(blob: seq<byte>, at: nat, count: nat, lim: Limits): (r: Option<Taken<seq<App>>>)
    requires at <= |blob|
    ensures r.Some? ==> at <= r.value.next <= |blob|
    decreases count
  {
    if count == 0 then Some(Taken([], at))
    else
      var a := TakeApp(blob, at, lim);
      if a.None? then None
      else
        var rest := TakeApps(blob, a.value.next, count - 1, lim);
        if rest.None? then None else Some(Taken([a.value.value] + rest.value.value, rest.value.next))
  }

  /** desfire_deserialize. */
  function Deserialize(blob: seq<byte>, lim: Limits): Option<Data> {
    if |blob| < 51 || blob[0] != 0x01 || blob[50] as nat > lim.apps then None
    else
      var apps := TakeApps(blob, 51, blob[50] as nat, lim);
      if apps.None? || apps.value.next != |blob| then None
      else
        Some(Data(blob[1..8], blob[8..15], blob[15..22], blob[22..27], blob[27], blob[28],
                  From32(blob[29], blob[30], blob[31], blob[32]), blob[33..49], blob[49], apps.value.value))
  }

  // ---------- reading what was written ----------

  /** The settings as a blob keeps them. */
  function Projected(s: Settings): Settings { s.(word := Kept(s)) }
  function ProjectedFile(f: File): File { f.(settings := Projected(f.settings)) }

  function ProjectedFiles(files: seq<File>): (r: seq<File>)
    ensures |r| == |files|
  { if files == [] then [] else [ProjectedFile(files[0])] + ProjectedFiles(files[1..]) }

  function ProjectedApps(apps: seq<App>): (r: seq<App>)
    ensures |r| == |apps|
  { if apps == [] then [] else [apps[0].(files := ProjectedFiles(apps[0].files))] + ProjectedApps(apps[1..]) }

  lemma SettingsBack(s: Settings)
    requires s.access < 65536 && s.word < Word32
    ensures ReadSettings(SettingsBytes(s)) == Projected(s)
  {
    var k := Kept(s);
    Le16Back(s.access);
    Le32Back(k);
    if s.kind == 0 || s.kind == 1 { Small24(k); } else if s.kind != 2 { Le16Back(k); }
  }

  lemma Small24(n: nat)
    requires n < 0x1000000
    ensures Lo(n / 256 / 256 / 256) == 0
  {
  }

  lemma FileParts(f: File)
    requires WellFormedFile(f)
    ensures var b := FileBytes(f);
            && b[0] == f.id && b[1..9] == SettingsBytes(f.settings) && b[11..] == f.data
            && From16(b[9], b[10]) == |f.data|
  {
    hide SettingsBytes;
    var b := FileBytes(f);
    Le16Back(|f.data|);
    assert b[9..11] == Le16(|f.data|);
    assert b[9] == b[9..11][0] && b[10] == b[9..11][1];
  }

  lemma TakeFileBack(pre: seq<byte>, f: File, post: seq<byte>, lim: Limits)
    requires WellFormedFile(f) && |f.data| <= lim.size
    ensures TakeFile(pre + FileBytes(f) + post, |pre|, lim) ==
            if f.data == [] && post == [] then None else Some(Taken(ProjectedFile(f), |pre| + 11 + |f.data|))
  {
    hide FileBytes, SettingsBytes, ReadSettings, Projected, From16;
    var b, blob, at, len := FileBytes(f), pre + FileBytes(f) + post, |pre|, |f.data|;
    FileParts(f);
    SettingsBack(f.settings);
    assert forall k :: 0 <= k < |b| ==> blob[at + k] == b[k];
    if |blob| >= at + 12 {
      assert blob[at + 9] == b[9] && blob[at + 10] == b[10] && blob[at + 0] == b[0];
      assert blob[at + 1..at + 9] == b[1..9];
      assert blob[at + 11..at + 11 + len] == b[11..];
    }
  }

  /** The files end the blob with nothing in the last one. */
  predicate EndsEmpty(files: seq<File>) { files != [] && files[|files| - 1].data == [] }

  lemma {:induction false} TakeFilesBack(pre: seq<byte>, files: seq<File>, post: seq<byte>, lim: Limits)
    requires (forall i :: 0 <= i < |files| ==> WellFormedFile(files[i])) && FilesWithin(files, lim)
    ensures TakeFiles(pre + FilesBytes(files) + post, |pre|, |files|, lim) ==
            if EndsEmpty(files) && post == [] then None
            else Some(Taken(ProjectedFiles(files), |pre| + |FilesBytes(files)|))
    decreases |files|
  {
    hide WellFormedFile, FileBytes, TakeFile, ProjectedFile;
    var blob := pre + FilesBytes(files) + post;
    if files != [] {
      var f, tail := files[0], files[1..];
      var b, rest := FileBytes(f), FilesBytes(tail);
      TakeFileBack(pre, f, rest + post, lim);
      assert blob == pre + b + (rest + post) == (pre + b) + rest + post;
      TakeFilesBack(pre + b, tail, post, lim);
      FilesLonger(tail);
      if tail != [] { assert files[|files| - 1] == tail[|tail| - 1]; }
    }
  }

  lemma FilesLonger(files: seq<File>)
    requires forall i :: 0 <= i < |files| ==> WellFormedFile(files[i])
    ensures files == [] <==> FilesBytes(files) == []
  {
  }

  lemma {:induction false} TakeKeysBack(pre: seq<byte>, keys: seq<seq<byte>>, post: seq<byte>)
    requires forall i :: 0 <= i < |keys| ==> |keys[i]| == 16
    ensures TakeKeys(pre + KeysBytes(keys) + post, |pre|, |keys|) == keys
    decreases |keys|
  {
    if keys != [] {
      var k, rest := keys[0], KeysBytes(keys[1..]);
      var blob := pre + KeysBytes(keys) + post;
      assert blob == (pre + k) + rest + post;
      assert blob[|pre|..|pre| + 16] == k;
      TakeKeysBack(pre + k, keys[1..], post);
    }
  }

  lemma TakeAppBack(pre: seq<byte>, a: App, post: seq<byte>, lim: Limits)
    requires WellFormedApp(a) && |a.files| <= lim.files && |a.keys| <= MaxKeys && FilesWithin(a.files, lim)
    ensures TakeApp(pre + AppBytes(a) + post, |pre|, lim) ==
            if EndsEmpty(a.files) && post == [] then None
            else Some(Taken(a.(files := ProjectedFiles(a.files)), |pre| + |AppBytes(a)|))
  {
    hide TakeFiles, TakeKeys, EndsEmpty, FilesWithin, ProjectedFiles, FilesBytes, KeysBytes;
    AppParts(a);
    var head, keys, files := AppHead(a), KeysBytes(a.keys), FilesBytes(a.files);
    var blob, at := pre + AppBytes(a) + post, |pre|;
    assert blob == (pre + head) + keys + (files + post) == (pre + head + keys) + files + post;
    TakeKeysBack(pre + head, a.keys, files + post);
    TakeFilesBack(pre + head + keys, a.files, post, lim);
    assert blob[at..at + 6] == head;
    assert blob[at + 3] == head[3] && blob[at + 4] == head[4] && blob[at + 5] == head[5];
    assert blob[at..at + 3] == head[..3] == a.id;
  }

  /** The blob ends in an empty file: the last application has files and its last file no data. */
  predicate EndsInEmptyFile(apps: seq<App>) { apps != [] && EndsEmpty(apps[|apps| - 1].files) }

  lemma {:induction false} TakeAppsBack(pre: seq<byte>, apps: seq<App>, lim: Limits)
    requires (forall i :: 0 <= i < |apps| ==> WellFormedApp(apps[i])) && AppsWithin(apps, lim)
    ensures TakeApps(pre + AppsBytes(apps), |pre|, |apps|, lim) ==
            if EndsInEmptyFile(apps) then None
            else Some(Taken(ProjectedApps(apps), |pre| + |AppsBytes(apps)|))
    decreases |apps|
  {
    hide WellFormedApp, AppBytes, TakeApp, EndsEmpty, FilesWithin, ProjectedFiles;
    var blob := pre + AppsBytes(apps);
    if apps != [] {
      var a, tail := apps[0], apps[1..];
      var b, rest := AppBytes(a), AppsBytes(tail);
      TakeAppBack(pre, a, rest, lim);
      assert blob == pre + b + rest == (pre + b) + rest;
      TakeAppsBack(pre + b, tail, lim);
      AppsLonger(tail);
      if tail != [] { assert apps[|apps| - 1] == tail[|tail| - 1]; }
    }
  }

  lemma AppsLonger(apps: seq<App>)
    requires forall i :: 0 <= i < |apps| ==> WellFormedApp(apps[i])
    ensures apps == [] <==> AppsBytes(apps) == []
  {
  }

  /** Reading back what was written succeeds exactly when the blob does not end in an empty file,
      and then gives every application, key, file and byte, settings as far as they are stored. */
  lemma RoundTrip(d: Data, outMax: nat, lim: Limits)
    requires WellFormed(d) && Serialize(d, outMax, lim).Ok?
    ensures Deserialize(Serialize(d, outMax, lim).value, lim) ==
            if EndsInEmptyFile(d.apps) then None else Some(d.(apps := ProjectedApps(d.apps)))
  {
    hide TakeApps, AppsBytes, EndsInEmptyFile, ProjectedApps, AppsWithin, WellFormedApp, PutApps;
    SerializeLayout(d, outMax, lim);
    var h, rest := Header(d), AppsBytes(d.apps);
    var blob := h + rest;
    TakeAppsBack(h, d.apps, lim);
    HeaderBack(d, blob);
  }

  lemma HeaderParts(d: Data)
    requires WellFormed(d)
    ensures var h := Header(d);
            && h[0] == 0x01 && h[1..8] == d.hw && h[8..15] == d.sw && h[15..22] == d.uid && h[22..27] == d.batch
            && h[27] == d.week && h[28] == d.year && h[29..33] == Le32(d.freeMemory) && h[33..49] == d.masterKey
            && h[49] == d.masterKeySettings && h[50] as nat == |d.apps|
  {
    hide Le32;
  }

  lemma HeaderBack(d: Data, blob: seq<byte>)
    requires WellFormed(d) && |blob| >= 51 && blob[..51] == Header(d)
    ensures blob[0] == 0x01 && blob[1..8] == d.hw && blob[8..15] == d.sw && blob[15..22] == d.uid && blob[22..27] == d.batch
    ensures blob[27] == d.week && blob[28] == d.year && From32(blob[29], blob[30], blob[31], blob[32]) == d.freeMemory
    ensures blob[33..49] == d.masterKey && blob[49] == d.masterKeySettings && blob[50] as nat == |d.apps|
  {
    hide Header, From32;
    var h := Header(d);
    HeaderParts(d);
    Le32Back(d.freeMemory);
    assert forall i :: 0 <= i < 51 ==> blob[i] == blob[..51][i];
    assert blob[1..8] == h[1..8] && blob[8..15] == h[8..15] && blob[15..22] == h[15..22];
    assert blob[22..27] == h[22..27] && blob[33..49] == h[33..49];
    var m := h[29..33];
    assert blob[29] == m[0] && blob[30] == m[1] && blob[31] == m[2] && blob[32] == m[3];
  }

  lemma PutOne(f: File, out: seq<byte>, lim: Limits)
    requires WellFormedFile(f) && f.data == [] && |out| <= 85
    ensures PutFiles([f], out, 100, lim) == Ok(out + FileBytes(f))
  {
    assert [f][1..] == [];
  }

  /** The smallest image that is written but not read back. */
  lemma EmptyFileLost(lim: Limits)
    requires ValidLimits(lim)
    ensures var d := Data(Zeroes(7), Zeroes(7), Zeroes(7), Zeroes(5), 0, 0, 0, Zeroes(16), 0,
                          [App(Zeroes(3), 0, [], [File(1, Settings(0, 0, 0, 0), [])])]);
            WellFormed(d) && Serialize(d, 100, lim).Ok? && Deserialize(Serialize(d, 100, lim).value, lim) == None
  {
    var f := File(1, Settings(0, 0, 0, 0), []);
    var a := App(Zeroes(3), 0, [], [f]);
    var d := Data(Zeroes(7), Zeroes(7), Zeroes(7), Zeroes(5), 0, 0, 0, Zeroes(16), 0, [a]);
    assert WellFormedApp(a);
    assert d.apps[1..] == [] && a.files[1..] == [];
    var out := Header(d) + AppHead(a) + KeysBytes(a.keys);
    PutOne(f, out, lim);
    assert PutApps(d.apps[1..], out + FileBytes(f), 100, lim) == Ok(out + FileBytes(f));
    assert PutApps(d.apps, Header(d), 100, lim).Ok?;
    RoundTrip(d, 100, lim);
  }

  // ---------- the loops ----------

  method WriteFiles(files: seq<File>, before: seq<byte>, outMax: nat, lim: Limits) returns (r: Result<seq<byte>>)
    requires forall i :: 0 <= i < |files| ==> WellFormedFile(files[i])
    ensures r == PutFiles(files, before, outMax, lim)
  {
    hide FileBytes, WellFormedFile;
    var out := before;
    for fi := 0 to |files|
      invariant PutFiles(files[fi..], out, outMax, lim) == PutFiles(files, before, outMax, lim)
    {
      assert files[fi..][0] == files[fi] && files[fi..][1..] == files[fi + 1..];
      if outMax < |out| + 15 + |files[fi].data| { return NoSpace; }
      if |files[fi].data| > lim.size { return Invalid; }
      out := out + FileBytes(files[fi]);
    }
    return Ok(out);
  }

  /** desfire_serialize. */
  method Write(d: Data, outMax: nat, lim: Limits) returns (r: Result<seq<byte>>)
    requires WellFormed(d)
    ensures r == Serialize(d, outMax, lim)
  {
    hide Header, AppHead, KeysBytes, PutFiles;
    if |d.apps| > lim.apps { return Invalid; }
    if outMax < 51 { return NoSpace; }
    var out := Header(d);
    for ai := 0 to |d.apps|
      invariant PutApps(d.apps[ai..], out, outMax, lim) == PutApps(d.apps, Header(d), outMax, lim)
    {
      var app := d.apps[ai];
      assert d.apps[ai..][0] == app && d.apps[ai..][1..] == d.apps[ai + 1..];
      if |app.files| > lim.files { return Invalid; }
      if |app.keys| > MaxKeys { return Invalid; }
      if outMax < |out| + 6 + 16 * |app.keys| { return NoSpace; }
      r := WriteFiles(app.files, out + AppHead(app) + KeysBytes(app.keys), outMax, lim);
      if !r.Ok? { return; }
      out := r.value;
    }
    return Ok(out);
  }

  method ReadFiles(blob: seq<byte>, start: nat, count: nat, lim: Limits) returns (r: Option<Taken<seq<File>>>)
    requires start <= |blob|
    ensures r == TakeFiles(blob, start, count, lim)
  {
    hide TakeFile;
    var files: seq<File>, at: nat := [], start;
    ghost var all := TakeFiles(blob, start, count, lim);
    assert all.Some? ==> [] + all.value.value == all.value.value;
    for fi := 0 to count
      invariant at <= |blob|
      invariant TakeFiles(blob, start, count, lim) ==
        var rest := TakeFiles(blob, at, count - fi, lim);
        if rest.None? then None else Some(Taken(files + rest.value.value, rest.value.next))
    {
      var f := TakeFile(blob, at, lim);
      if f.None? { return None; }
      ghost var rest := TakeFiles(blob, f.value.next, count - fi - 1, lim);
      if rest.Some? { assert files + ([f.value.value] + rest.value.value) == (files + [f.value.value]) + rest.value.value; }
      files, at := files + [f.value.value], f.value.next;
    }
    assert files + [] == files;
    return Some(Taken(files, at));
  }

  method ReadApp(blob: seq<byte>, at: nat, lim: Limits) returns (r: Option<Taken<App>>)
    ensures r == TakeApp(blob, at, lim)
  {
    hide TakeFiles, TakeKeys;
    if |blob| < at + 6 { return None; }
    var keyCount, fileCount := blob[at + 4] as nat, blob[at + 5] as nat;
    if keyCount > MaxKeys { return None; }
    if fileCount > lim.files { return None; }
    if |blob| < at + 6 + 16 * keyCount { return None; }
    var files := ReadFiles(blob, at + 6 + 16 * keyCount, fileCount, lim);
    if files.None? { return None; }
    return Some(Taken(App(blob[at..at + 3], blob[at + 3], TakeKeys(blob, at + 6, keyCount), files.value.value), files.value.next));
  }

  /** desfire_deserialize. */
  method Read(blob: seq<byte>, lim: Limits) returns (r: Option<Data>)
    ensures r == Deserialize(blob, lim)
  {
    hide TakeApp, From32;
    if |blob| < 51 { return None; }
    if blob[0] != 0x01 { return None; }
    var count := blob[50] as nat;
    if count > lim.apps { return None; }
    var apps: seq<App>, at: nat := [], 51;
    ghost var all := TakeApps(blob, 51, count, lim);
    assert all.Some? ==> [] + all.value.value == all.value.value;
    for ai := 0 to count
      invariant at <= |blob|
      invariant TakeApps(blob, 51, count, lim) ==
        var rest := TakeApps(blob, at, count - ai, lim);
        if rest.None? then None else Some(Taken(apps + rest.value.value, rest.value.next))
    {
      var a := ReadApp(blob, at, lim);
      if a.None? { return None; }
      ghost var rest := TakeApps(blob, a.value.next, count - ai - 1, lim);
      if rest.Some? { assert apps + ([a.value.value] + rest.value.value) == (apps + [a.value.value]) + rest.value.value; }
      apps, at := apps + [a.value.value], a.value.next;
    }
    assert apps + [] == apps;
    if at != |blob| { return None; }
    return Some(Data(blob[1..8], blob[8..15], blob[15..22], blob[22..27], blob[27], blob[28],
                     From32(blob[29], blob[30], blob[31], blob[32]), blob[33..49], blob[49], apps));
  }
}
