/**
 * A sync that completes and misses its goal: one file, a destination one directory down.
 * Messages are written in a plain text format that stands in for JSON, so that nothing is
 * assumed here.
 */
module RsyncExample {
  import opened Bytes
  import opened Framing
  import opened WireFormats
  import opened Rsync
  import opened RsyncRuns
  import opened RsyncProgress

  // ---------- a text format that can be read back ----------

  /** A value and the text behind it. */
  datatype Read<+T> = Read(value: T, rest: bytes)

  /** Every byte behind a one, a zero at the end. */
  function WriteText(s: bytes): (t: bytes)
    ensures |t| == 2 * |s| + 1
  {
    if s == [] then [0] else [1, s[0]] + WriteText(s[1..])
  }

  function ReadText(t: bytes): (r: Option<Read<bytes>>)
    ensures r.Some? ==> |r.value.rest| < |t|
  {
    if t == [] then None
    else if t[0] == 0 then Some(Read([], t[1..]))
    else if |t| < 2 then None
    else match ReadText(t[2..])
      case None => None
      case Some(r) => Some(Read([t[1]] + r.value, r.rest))
  }

  lemma {:induction false} ReadOfText(s: bytes, tail: bytes)
    ensures ReadText(WriteText(s) + tail) == Some(Read(s, tail))
  {
    var t := WriteText(s) + tail;
    if s == [] {
      assert t[1..] == tail;
    } else {
      ReadOfText(s[1..], tail);
      assert t[2..] == WriteText(s[1..]) + tail;
      assert [s[0]] + s[1..] == s;
    }
  }

  function WriteEntry(e: Entry): bytes {
    WriteText(e.path) + (WriteText(Decimal(e.size)) + WriteText(e.checksum))
  }

  function ReadEntry(t: bytes): (r: Option<Read<Entry>>)
    ensures r.Some? ==> |r.value.rest| < |t|
  {
    match ReadText(t)
    case None => None
    case Some(path) =>
      match ReadText(path.rest)
      case None => None
      case Some(size) =>
        match ReadText(size.rest)
        case None => None
        case Some(checksum) =>
          if DecimalValue(size.value) < 0 then None
          else Some(Read(Entry(path.value, DecimalValue(size.value), checksum.value), checksum.rest))
  }

  lemma ReadOfEntry(e: Entry, tail: bytes)
    ensures ReadEntry(WriteEntry(e) + tail) == Some(Read(e, tail))
  {
    var size, checksum := WriteText(Decimal(e.size)), WriteText(e.checksum);
    assert WriteEntry(e) + tail == WriteText(e.path) + (size + (checksum + tail));
    ReadOfText(e.path, size + (checksum + tail));
    ReadOfText(Decimal(e.size), checksum + tail);
    ReadOfText(e.checksum, tail);
    DecimalValueOfDecimal(e.size);
  }

  /** A list: every item behind a one, a zero at the end. */
  function WriteManifest(m: seq<Entry>): bytes {
    if m == [] then [0] else [1] + (WriteEntry(m[0]) + WriteManifest(m[1..]))
  }

  function ReadManifest(t: bytes): Option<seq<Entry>>
    decreases |t|
  {
    if t == [] then None
    else if t[0] == 0 then if |t| == 1 then Some([]) else None
    else match ReadEntry(t[1..])
      case None => None
      case Some(e) =>
        match ReadManifest(e.rest)
        case None => None
        case Some(m) => Some([e.value] + m)
  }

  lemma ReadOneMoreEntry(e: Entry, m: seq<Entry>, tail: bytes)
    requires ReadManifest(tail) == Some(m)
    ensures ReadManifest([1] + (WriteEntry(e) + tail)) == Some([e] + m)
  {
    ReadOfEntry(e, tail);
    assert ([1] + (WriteEntry(e) + tail))[1..] == WriteEntry(e) + tail;
  }

  lemma {:induction false} ReadOfManifest(m: seq<Entry>)
    ensures ReadManifest(WriteManifest(m)) == Some(m)
  {
    if m == [] {
    } else {
      ReadOfManifest(m[1..]);
      ReadOneMoreEntry(m[0], m[1..], WriteManifest(m[1..]));
      assert [m[0]] + m[1..] == m;
    }
  }

  function WritePaths(l: seq<bytes>): bytes {
    if l == [] then [0] else [1] + (WriteText(l[0]) + WritePaths(l[1..]))
  }

  function ReadPaths(t: bytes): Option<seq<bytes>>
    decreases |t|
  {
    if t == [] then None
    else if t[0] == 0 then if |t| == 1 then Some([]) else None
    else match ReadText(t[1..])
      case None => None
      case Some(p) =>
        match ReadPaths(p.rest)
        case None => None
        case Some(l) => Some([p.value] + l)
  }

  lemma ReadOneMorePath(p: bytes, l: seq<bytes>, tail: bytes)
    requires ReadPaths(tail) == Some(l)
    ensures ReadPaths([1] + (WriteText(p) + tail)) == Some([p] + l)
  {
    ReadOfText(p, tail);
    assert ([1] + (WriteText(p) + tail))[1..] == WriteText(p) + tail;
  }

  lemma {:induction false} ReadOfPaths(l: seq<bytes>)
    ensures ReadPaths(WritePaths(l)) == Some(l)
  {
    if l == [] {
    } else {
      ReadOfPaths(l[1..]);
      ReadOneMorePath(l[0], l[1..], WritePaths(l[1..]));
      assert [l[0]] + l[1..] == l;
    }
  }

  function Text(): Json {
    Json(m => WriteManifest(m), t => ReadManifest(t), l => WritePaths(l), t => ReadPaths(t))
  }

  /** The assumption about JSON can be met. */
  lemma TextIsFaithful()
    ensures Faithful(Text())
  {
    forall m ensures Text().toManifest(Text().ofManifest(m)) == Some(m) { ReadOfManifest(m); }
    forall l ensures Text().toPaths(Text().ofPaths(l)) == Some(l) { ReadOfPaths(l); }
  }

  // ---------- the example ----------

  const NAME: bytes := [102]
  const CONTENT: bytes := [120]
  const SOURCE: Files := map[NAME := CONTENT]
  const DESTINATION: Files := map[]

  /** The checksum is the content itself, the destination is "d/". */
  function Example(): Config { Config(Text(), content => content, [100, 47], false) }

  function Listed(): seq<Entry> { [Entry(NAME, 1, CONTENT)] }

  lemma FirstTwoDiffer(m: seq<Entry>, files: Files, checksum: bytes -> bytes)
    requires IsScan(m, files, checksum)
    ensures |m| <= 1 || m[0].path != m[1].path
  {
  }

  lemma ScansOfExample(m: seq<Entry>)
    ensures IsScan(m, SOURCE, Example().checksum) <==> m == Listed()
    ensures IsScan(m, DESTINATION, Example().checksum) <==> m == []
  {
    if IsScan(m, SOURCE, Example().checksum) {
      assert NAME in SOURCE;
      assert exists i :: 0 <= i < |m| && m[i].path == NAME;
      assert forall j :: 0 <= j < |m| ==> m[j].path == NAME;
      FirstTwoDiffer(m, SOURCE, Example().checksum);
      assert |m| == 1;
      assert m[0] == Entry(NAME, 1, CONTENT);
    }
    if IsScan(m, DESTINATION, Example().checksum) && m != [] {
      assert m[0].path in DESTINATION;
    }
    assert Listed()[0].path == NAME;
  }

  lemma BelowDestination()
    ensures Below(DESTINATION, Example().prefix) == DESTINATION
  {
  }

  lemma RequestOfExample()
    ensures ToSend(Listed(), []) == [NAME]
  {
    var l, r := Dict(Listed()), Dict([]);
    var pick := path => Changed(l, r, path);
    assert Listed()[..0] == [] && [NAME][..0] == [];
    assert Paths([]) == [] && Paths(Listed()) == [] + [NAME];
    assert l == map[NAME := Listed()[0]];
    assert Select([], pick) == [] && pick(NAME);
    assert Select([NAME], pick) == [] + [NAME];
  }

  lemma TransferOfExample()
    ensures var t := Transfer(Example(), SOURCE, [NAME], []); t.ok && AllSendable(Fixed(0), t.frames)
  {
    Pow256Values();
    AsciiIsUtf8(NAME);
    assert [NAME][1..] == [] && [CONTENT][1..] == [];
    assert Chunks(CONTENT) == [CONTENT];
    assert DataFrames([CONTENT]) == [Frame(MSG_FILE_DATA, 0, CONTENT)] + DataFrames([]);
    assert SendFiles(SOURCE, []) == Emission([], 0, 0, true);
    assert SendFiles(SOURCE, [NAME]).frames == FileFrames(NAME, CONTENT) + [];
    var t := Transfer(Example(), SOURCE, [NAME], []);
    assert t.frames == FileFrames(NAME, CONTENT) + [] + [Frame(MSG_DONE, 0, [])];
  }

  lemma ManifestsOfExample()
    ensures Fixed(0).sendable(ManifestFrame(Example(), Listed())) && Fixed(0).sendable(ManifestFrame(Example(), []))
    ensures Fixed(0).sendable(RequestFrame(Example(), [NAME]))
  {
    Pow256Values();
    assert Listed()[1..] == [] && [NAME][1..] == [];
    assert WriteManifest([]) == [0] && WritePaths([]) == [0];
    assert Decimal(1) == [49];
    assert |WriteEntry(Listed()[0])| == 9;
    assert WriteManifest(Listed()) == [1] + (WriteEntry(Listed()[0]) + WriteManifest([]));
    assert WritePaths([NAME]) == [1] + (WriteText(NAME) + WritePaths([]));
  }

  lemma ExampleFits()
    ensures RsyncProgress.Fits(Fixed(0), Example(), SOURCE, Below(DESTINATION, Example().prefix))
  {
    var c := Example();
    BelowDestination();
    RequestOfExample();
    TransferOfExample();
    ManifestsOfExample();
    forall ms, mr | IsScan(ms, SOURCE, c.checksum) && IsScan(mr, DESTINATION, c.checksum)
      ensures ms == Listed() && mr == []
    {
      ScansOfExample(ms);
      ScansOfExample(mr);
    }
  }

  /** There is a run of the example that is done and has not reached its goal. */
  lemma SyncBelowADirectoryFails() returns (steps: seq<Step>)
    ensures var n := Run(Fixed(0), Example(), SOURCE, DESTINATION, steps).net;
            n.receiver.done && !Converged(Example(), SOURCE, DESTINATION, n.receiver.files)
  {
    var c := Example();
    TextIsFaithful();
    ExampleFits();
    steps := DoneRunExists(c, SOURCE, DESTINATION);
    BelowDestination();
    assert NAME in Written(c, SOURCE, DESTINATION);
    ConvergesExactlyWhen(c, SOURCE, DESTINATION, steps);
  }

  /** And there is a run of it that is never done: the manifest comes before the sender has scanned. */
  lemma SyncCanStall() returns (steps: seq<Step>)
    ensures forall more :: !Run(Fixed(0), Example(), SOURCE, DESTINATION, steps + more).net.receiver.done
  {
    var c := Example();
    TextIsFaithful();
    ManifestsOfExample();
    BelowDestination();
    ScansOfExample([]);
    steps := EarlyRun(c, SOURCE, DESTINATION, []);
    forall more ensures !Run(Fixed(0), c, SOURCE, DESTINATION, steps + more).net.receiver.done {
      assert (steps + more)[..1] == steps[..1] && (steps + more)[..2] == steps[..2];
      assert EarlyAt(c, SOURCE, DESTINATION, steps + more, 1);
      EarlyIsNeverDone(c, SOURCE, DESTINATION, steps + more, 1);
    }
  }
}
