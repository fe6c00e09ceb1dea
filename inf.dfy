/** `extract_binaries` and `create_inf`: the embedded co-installer
    resources are written under the driver directory, then the inf file is
    written there, its `[Strings]` section naming the device and carrying a
    fresh GUID, followed by the driver-type template `inf[type]`. The
    file-system answers come in as inputs and the files written are
    recorded as values; the GUID CoCreateGuid returns is a parameter. */
module InfWriter {
  import opened Common
  import opened DeviceIdentity
  import opened DriverScan
  import opened GuidText

  /** The two driver types, the indices of the `inf[]` templates. */
  const UseWinUsb: int := 0
  const UseLibUsb: int := 1

  /** One entry of the embedded `resource[]` table. */
  datatype Resource = Resource(subdir: string, name: string, data: seq<byte>)

  /** A resource together with what the file system answers for it:
      whether its subdirectory is writable or can be created, and whether
      the file opens for writing. */
  datatype Extraction = Extraction(res: Resource, dirReady: bool, fileOpened: bool)

  predicate Succeeds(x: Extraction) {
    x.dirReady && x.fileOpened
  }

  datatype WrittenFile = WrittenFile(name: string, data: seq<byte>)

  datatype Extracted = Extracted(code: int, files: seq<WrittenFile>)

  function ResourcePath(path: string, res: Resource): string {
    path + "\\" + res.subdir + "\\" + res.name
  }

  /** What `extract_binaries` does on the first |items| resources. */
  function Extract(path: string, items: seq<Extraction>): Extracted {
    if items == [] then Extracted(0, [])
    else
      var prev := Extract(path, items[..|items| - 1]);
      var x := items[|items| - 1];
      if prev.code != 0 then prev
      else if !Succeeds(x) then Extracted(-1, prev.files)
      else Extracted(0, prev.files + [WrittenFile(ResourcePath(path, x.res), x.res.data)])
  }

  /** The index of the first resource that cannot be written, or |items|. */
  function FirstFailure(items: seq<Extraction>): (n: nat)
    ensures n <= |items|
    ensures n < |items| ==> !Succeeds(items[n])
    ensures forall j :: 0 <= j < n ==> Succeeds(items[j])
  {
    if items == [] then 0
    else
      var m := FirstFailure(items[..|items| - 1]);
      if m < |items| - 1 then m
      else if Succeeds(items[|items| - 1]) then |items| else |items| - 1
  }

  /** `extract_binaries` writes every resource before the first one that
      fails, each to `path\subdir\name` with its own data, and returns 0
      exactly when none fails. */
  lemma {:induction false} ExtractWritesUpToFailure(path: string, items: seq<Extraction>)
    ensures var r := Extract(path, items);
      (r.code == 0 <==> FirstFailure(items) == |items|)
      && (r.code == 0 || r.code == -1)
      && |r.files| == FirstFailure(items)
      && forall k :: 0 <= k < |r.files| ==>
           r.files[k] == WrittenFile(ResourcePath(path, items[k].res), items[k].res.data)
  {
    if items != [] {
      var init := items[..|items| - 1];
      ExtractWritesUpToFailure(path, init);
      assert forall k :: 0 <= k < |init| ==> init[k] == items[k];
    }
  }

  /** Once a resource has failed, later ones are not looked at. */
  lemma {:induction false} ExtractFailureSticks(path: string, a: seq<Extraction>, b: seq<Extraction>)
    requires Extract(path, a).code != 0
    ensures Extract(path, a + b) == Extract(path, a)
  {
    if b != [] {
      var b' := b[..|b| - 1];
      assert (a + b)[..|a + b| - 1] == a + b';
      ExtractFailureSticks(path, a, b');
    } else {
      assert a + b == a;
    }
  }

  /** `extract_binaries`. */
  method ExtractBinaries(path: string, items: seq<Extraction>) returns (r: int, files: seq<WrittenFile>)
    ensures Extracted(r, files) == Extract(path, items)
  {
    files := [];
    var i := 0;
    while i < |items|
      invariant 0 <= i <= |items|
      invariant Extract(path, items[..i]) == Extracted(0, files)
    {
      var x := items[i];
      assert items[..i + 1][..i] == items[..i];
      if !x.dirReady || !x.fileOpened {
        r := -1;
        assert items[..i + 1] + items[i + 1..] == items;
        ExtractFailureSticks(path, items[..i + 1], items[i + 1..]);
        return;
      }
      files := files + [WrittenFile(ResourcePath(path, x.res), x.res.data)];
      i := i + 1;
    }
    assert items[..i] == items;
    r := 0;
  }

  /** A `key = "value"` line of the `[Strings]` section. */
  function Quoted(key: string, value: string): string {
    key + " = \"" + value + "\""
  }

  /** The value of a `key = "value"` line, if the line has that shape. */
  function Unquote(line: string, key: string): Option<string> {
    var lead := key + " = \"";
    if |line| >= |lead| + 1 && line[..|lead|] == lead && line[|line| - 1] == '"'
    then Some(line[|lead|..|line| - 1])
    else None
  }

  lemma UnquoteQuoted(key: string, value: string)
    ensures Unquote(Quoted(key, value), key) == Some(value)
  {
    var lead := key + " = \"";
    var line := Quoted(key, value);
    assert line == lead + value + "\"";
    assert line[..|lead|] == lead;
    assert line[|lead|..|line| - 1] == value;
  }

  /** The `DeviceID` value: `vid&pid`, then `&mi` when `mi` is not empty. */
  function DeviceIdValue(vid: string, pid: string, mi: string): string {
    vid + "&" + pid + (if mi != "" then "&" + mi else "")
  }

  /** The pieces of `s` between occurrences of `c`. */
  function SplitOn(s: string, c: char): (parts: seq<string>)
    ensures |parts| >= 1
  {
    if s == [] then [""]
    else
      var rest := SplitOn(s[1..], c);
      if s[0] == c then [""] + rest else [[s[0]] + rest[0]] + rest[1..]
  }

  lemma {:induction false} SplitOnFree(a: string, c: char)
    requires c !in a
    ensures SplitOn(a, c) == [a]
  {
    if a != [] {
      SplitOnFree(a[1..], c);
      assert [a[0]] + a[1..] == a;
    }
  }

  lemma {:induction false} SplitOnJoin(a: string, t: string, c: char)
    requires c !in a
    ensures SplitOn(a + [c] + t, c) == [a] + SplitOn(t, c)
  {
    var s := a + [c] + t;
    if a == [] {
      assert s == [c] + t && s[1..] == t;
    } else {
      assert s[0] == a[0] && s[1..] == a[1..] + [c] + t;
      SplitOnJoin(a[1..], t, c);
      assert [a[0]] + a[1..] == a;
    }
  }

  /** Reads a `DeviceID` value back into its vid, pid and mi fields. */
  function ParseDeviceId(v: string): Option<(string, string, string)> {
    var parts := SplitOn(v, '&');
    if |parts| == 2 then Some((parts[0], parts[1], ""))
    else if |parts| == 3 && parts[2] != "" then Some((parts[0], parts[1], parts[2]))
    else None
  }

  /** The `DeviceID` value gives back the fields it was built from, as
      long as none of them holds a `&`. */
  lemma DeviceIdRoundTrip(vid: string, pid: string, mi: string)
    requires '&' !in vid && '&' !in pid && '&' !in mi
    ensures ParseDeviceId(DeviceIdValue(vid, pid, mi)) == Some((vid, pid, mi))
  {
    var v := DeviceIdValue(vid, pid, mi);
    if mi == "" {
      assert v == vid + ['&'] + pid;
      SplitOnJoin(vid, pid, '&');
      SplitOnFree(pid, '&');
    } else {
      assert v == vid + ['&'] + (pid + ['&'] + mi);
      SplitOnJoin(vid, pid + ['&'] + mi, '&');
      SplitOnJoin(pid, mi, '&');
      SplitOnFree(mi, '&');
    }
  }

  /** The lines `create_inf` prints before the driver template; `%s`
      prints each field up to its first NUL. */
  function StringsSection(desc: string, vid: string, pid: string, mi: string, guid: Guid): (lines: seq<string>)
    ensures |lines| == 6
  {
    [ "; libusb_device.inf",
      "; Copyright (c) 2010 libusb (GNU LGPL)",
      "[Strings]",
      Quoted("DeviceName", CString(desc)),
      Quoted("DeviceID", DeviceIdValue(CString(vid), CString(pid), CString(mi))),
      Quoted("DeviceGUID", GuidToString(guid)) ]
  }

  lemma CStringKeeps(s: string, c: char)
    requires c !in s
    ensures c !in CString(s)
  {
  }

  /** The `[Strings]` section reads back: `DeviceName` is the description
      verbatim, `DeviceID` splits on `&` into vid, pid and (when present)
      mi, and `DeviceGUID` parses to the GUID it was given. */
  lemma {:induction false} StringsSectionReadsBack(desc: string, vid: string, pid: string, mi: string, guid: Guid)
    requires '&' !in vid && '&' !in pid && '&' !in mi
    ensures var lines := StringsSection(desc, vid, pid, mi, guid);
      lines[2] == "[Strings]"
      && Unquote(lines[3], "DeviceName") == Some(CString(desc))
      && Unquote(lines[4], "DeviceID").Some?
      && ParseDeviceId(Unquote(lines[4], "DeviceID").value) == Some((CString(vid), CString(pid), CString(mi)))
      && Unquote(lines[5], "DeviceGUID").Some?
      && ParseGuid(Unquote(lines[5], "DeviceGUID").value) == Some(guid)
  {
    UnquoteQuoted("DeviceName", CString(desc));
    UnquoteQuoted("DeviceID", DeviceIdValue(CString(vid), CString(pid), CString(mi)));
    UnquoteQuoted("DeviceGUID", GuidToString(guid));
    CStringKeeps(vid, '&');
    CStringKeeps(pid, '&');
    CStringKeeps(mi, '&');
    DeviceIdRoundTrip(CString(vid), CString(pid), CString(mi));
    GuidRoundTrip(guid);
  }

  /** A record that `list_driverless` fills from a device path yields a
      `DeviceID` line that splits back into its vid, pid and mi. */
  lemma ScannedRecordReadsBack(e: Entry, plat: Platform, sizes: FieldSizes, guid: Guid)
    requires e.deviceId.Some?
    ensures var rec := RecordFor(e, plat, sizes);
      rec.desc.Some?
      && ParseDeviceId(Unquote(StringsSection(rec.desc.value, rec.vid, rec.pid, rec.mi, guid)[4], "DeviceID").value)
         == Some((CString(rec.vid), CString(rec.pid), CString(rec.mi)))
  {
    var rec := RecordFor(e, plat, sizes);
    IdentityFieldsDelimFree(CString(e.deviceId.value), sizes);
    assert IsDelim('&');
    StringsSectionReadsBack(rec.desc.value, rec.vid, rec.pid, rec.mi, guid);
  }

  /** What the file system answers `create_inf`: whether the directory is
      writable or can be created, the resources to extract, and whether the
      inf file opens for writing. */
  datatype FsAnswers = FsAnswers(pathReady: bool, resources: seq<Extraction>, infOpened: bool)

  /** The inf file: its name, the `[Strings]` lines, and the index of the
      `inf[]` template appended after them. */
  datatype InfFile = InfFile(name: string, lines: seq<string>, template: int)

  /** The return value, whether the file system was touched, the resource
      files written, and the inf file written. */
  datatype InfOutcome = InfOutcome(code: int, fsTouched: bool, extracted: seq<WrittenFile>, inf: Option<InfFile>)

  const Untouched := InfOutcome(-1, false, [], None)

  function InfFor(rec: DeviceRecord, path: string, infType: int, guid: Guid): InfFile
    requires rec.desc.Some?
  {
    InfFile(path + "\\" + InfName, StringsSection(rec.desc.value, rec.vid, rec.pid, rec.mi, guid), infType)
  }

  /** `create_inf` as written: the type check `type < USE_WINUSB && type >
      USE_LIBUSB` never holds, and the result of `extract_binaries` is not
      looked at, so the outcome depends on neither. */
  function CreateInf(drvInfo: Option<DeviceRecord>, path: Option<string>, infType: int, fs: FsAnswers, guid: Guid): (o: InfOutcome)
    requires drvInfo.Some? ==> drvInfo.value.desc.Some?
    ensures path.None? || drvInfo.None? ==> o == Untouched
    ensures o.fsTouched <==> path.Some? && drvInfo.Some?
    ensures o.code == 0 <==> path.Some? && drvInfo.Some? && fs.pathReady && fs.infOpened
    ensures o.code == 0 <==> o.inf.Some?
    ensures o.code == 0 || o.code == -1
    ensures o.inf.Some? ==> o.inf.value == InfFor(drvInfo.value, path.value, infType, guid)
    ensures o.fsTouched && fs.pathReady ==> o.extracted == Extract(path.value, fs.resources).files
    ensures !(o.fsTouched && fs.pathReady) ==> o.extracted == []
  {
    if path.None? || drvInfo.None? then Untouched
    else if infType < UseWinUsb && infType > UseLibUsb then Untouched
    else if !fs.pathReady then InfOutcome(-1, true, [], None)
    else
      var x := Extract(path.value, fs.resources);
      if !fs.infOpened then InfOutcome(-1, true, x.files, None)
      else InfOutcome(0, true, x.files, Some(InfFor(drvInfo.value, path.value, infType, guid)))
  }

  /** `create_inf` with the type check it evidently intends (`||`) and with
      a failed extraction reported: an inf is only written for one of the
      two driver types, and only once every resource is in place. */
  function CreateInfChecked(drvInfo: Option<DeviceRecord>, path: Option<string>, infType: int, fs: FsAnswers, guid: Guid): (o: InfOutcome)
    requires drvInfo.Some? ==> drvInfo.value.desc.Some?
    ensures path.None? || drvInfo.None? ==> o == Untouched
    ensures o.fsTouched <==> path.Some? && drvInfo.Some? && UseWinUsb <= infType <= UseLibUsb
    ensures o.code == 0 <==> o.inf.Some?
    ensures o.code == 0 || o.code == -1
    ensures o.inf.Some? ==>
      o.inf.value == InfFor(drvInfo.value, path.value, infType, guid)
      && UseWinUsb <= o.inf.value.template <= UseLibUsb
      && fs.pathReady && fs.infOpened
      && Extract(path.value, fs.resources).code == 0
    ensures o.fsTouched && fs.pathReady ==> o.extracted == Extract(path.value, fs.resources).files
    ensures !(o.fsTouched && fs.pathReady) ==> o.extracted == []
  {
    if path.None? || drvInfo.None? then Untouched
    else if infType < UseWinUsb || infType > UseLibUsb then Untouched
    else if !fs.pathReady then InfOutcome(-1, true, [], None)
    else
      var x := Extract(path.value, fs.resources);
      if x.code != 0 || !fs.infOpened then InfOutcome(-1, true, x.files, None)
      else InfOutcome(0, true, x.files, Some(InfFor(drvInfo.value, path.value, infType, guid)))
  }

  /** On a valid driver type with every resource extracted, the corrected
      check behaves as the code as written. */
  lemma CheckedAgreesOnValidInput(drvInfo: Option<DeviceRecord>, path: Option<string>, infType: int, fs: FsAnswers, guid: Guid)
    requires drvInfo.Some? ==> drvInfo.value.desc.Some?
    requires UseWinUsb <= infType <= UseLibUsb
    requires path.Some? ==> Extract(path.value, fs.resources).code == 0
    ensures CreateInfChecked(drvInfo, path, infType, fs, guid) == CreateInf(drvInfo, path, infType, fs, guid)
  {
  }

  /** As written, a driver type of 2 gets past the check and an inf is
      written that appends the template `inf[2]`, beyond the two templates
      there are; the corrected check turns it away before the file system
      is touched. */
  lemma TypeGuardLetsTwoThrough(rec: DeviceRecord, path: string, fs: FsAnswers, guid: Guid)
    requires rec.desc.Some? && fs.pathReady && fs.infOpened
    ensures var o := CreateInf(Some(rec), Some(path), 2, fs, guid);
      o.code == 0 && o.inf.Some? && o.inf.value.template == 2 && !(UseWinUsb <= 2 <= UseLibUsb)
    ensures CreateInfChecked(Some(rec), Some(path), 2, fs, guid) == Untouched
  {
  }

  /** As written, an inf is written and 0 returned although a resource
      could not be extracted, so the inf stands without the resources from
      the failed one on; the corrected version returns -1 and writes no
      inf. */
  lemma ExtractionFailureIgnored(rec: DeviceRecord, path: string, infType: int, fs: FsAnswers, guid: Guid)
    requires rec.desc.Some? && fs.pathReady && fs.infOpened
    requires UseWinUsb <= infType <= UseLibUsb
    requires exists k :: 0 <= k < |fs.resources| && !Succeeds(fs.resources[k])
    ensures var o := CreateInf(Some(rec), Some(path), infType, fs, guid);
      o.code == 0 && o.inf.Some? && |o.extracted| < |fs.resources|
    ensures var o := CreateInfChecked(Some(rec), Some(path), infType, fs, guid);
      o.code == -1 && o.inf.None?
  {
    ExtractWritesUpToFailure(path, fs.resources);
  }
}
