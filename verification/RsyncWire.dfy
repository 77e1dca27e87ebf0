/** The messages of rsync byte by byte, and what an end makes of those it does not expect. */
module RsyncWire {
  import opened Bytes
  import opened Framing
  import opened WireFormats
  import opened Rsync
  import opened RsyncRuns

  // ---------- what goes out ----------

  lemma OneOnTheWire(f: Frame)
    requires f.id == 0 && |f.payload| < 0x1_0000_0000
    ensures EncodeAll(Fixed(0), [f]) == [f.kind] + FourBytes(|f.payload|) + f.payload
  {
    FixedLayout(f.kind, 0, f.payload);
    assert [f][1..] == [];
    assert EncodeAll(Fixed(0), [f]) == FixedEncode(0, f) + [];
  }

  /** The messages that carry JSON text, and the end. */
  lemma TextOnTheWire(c: Config, m: seq<Entry>, l: seq<bytes>)
    requires |c.json.ofManifest(m)| < 0x1_0000_0000 && |c.json.ofPaths(l)| < 0x1_0000_0000
    ensures var text := c.json.ofManifest(m);
            EncodeAll(Fixed(0), [ManifestFrame(c, m)]) == [1] + FourBytes(|text|) + text
    ensures var text := c.json.ofPaths(l);
            && EncodeAll(Fixed(0), [RequestFrame(c, l)]) == [2] + FourBytes(|text|) + text
            && EncodeAll(Fixed(0), Closing(c, l))
               == (if c.delete && l != [] then [6] + FourBytes(|text|) + text else []) + [7, 0, 0, 0, 0]
  {
    var text, done := c.json.ofPaths(l), Frame(MSG_DONE, 0, []);
    OneOnTheWire(ManifestFrame(c, m));
    OneOnTheWire(RequestFrame(c, l));
    OneOnTheWire(Frame(MSG_DELETE, 0, text));
    OneOnTheWire(done);
    assert [7] + FourBytes(0) + [] == [7, 0, 0, 0, 0];
    EncodeAllAppend(Fixed(0), if c.delete && l != [] then [Frame(MSG_DELETE, 0, text)] else [], [done]);
  }

  /** The announcement of a file: its path behind its length, then eight bytes of size. */
  lemma StartOnTheWire(path: bytes, size: nat)
    requires |path| < 0x1_0000 && size < 0x1_0000_0000_0000_0000
    ensures var n := |path| + 10; var p := StartPayload(path, size);
            && |p| == n && p[..2] == [|path| / 256, |path| % 256] && p[2..n - 8] == path
            && |p[n - 8..]| == 8 && ValueBE(p[n - 8..]) == size
            && EncodeAll(Fixed(0), [Frame(MSG_FILE_START, 0, p)]) == [3] + FourBytes(n) + p
  {
    TwoBytes(|path|);
    Pow256Values();
    ValueOfBytesBE(size, 8);
    PartsOfStart(path, BytesBE(|path|, 2), BytesBE(size, 8));
    var p := StartPayload(path, size);
    assert p[2 + |path|..] == p[2 + |path|..10 + |path|];
    OneOnTheWire(Frame(MSG_FILE_START, 0, p));
  }

  /** A chunk, and the end of a file. */
  lemma ChunkOnTheWire(chunk: bytes)
    requires |chunk| <= 32768
    ensures EncodeAll(Fixed(0), DataFrames([chunk])) == [4] + FourBytes(|chunk|) + chunk
    ensures EncodeAll(Fixed(0), [Frame(MSG_FILE_END, 0, [])]) == [5, 0, 0, 0, 0]
  {
    OneOnTheWire(Frame(MSG_FILE_DATA, 0, chunk));
    OneOnTheWire(Frame(MSG_FILE_END, 0, []));
    assert [chunk][1..] == [];
    assert DataFrames([chunk]) == [Frame(MSG_FILE_DATA, 0, chunk)] + DataFrames([]);
    assert [5] + FourBytes(0) + [] == [5, 0, 0, 0, 0];
  }

  // ---------- what comes in ----------

  /** Too short for its path or its size, or a path that is no text. */
  predicate BadStart(payload: bytes) {
    || |payload| < 2
    || var n := payload[0] as int * 256 + payload[1] as int; |payload| < 10 + n || !Utf8(payload[2..2 + n])
  }

  lemma StartIsBadExactlyWhen(payload: bytes)
    ensures ParseStart(payload) == None <==> BadStart(payload)
  {
    if |payload| >= 2 {
      TwoBytes(payload[0] as int * 256 + payload[1] as int);
      assert payload[..2] == [payload[0], payload[1]];
    }
  }

  /**
   * A message raises if and only if it resolves a manifest or a request a second time,
   * its JSON cannot be read, or it announces a file badly.
   */
  lemma RaisesExactlyWhen(json: Json, p: Proto, f: Frame)
    requires !p.failed
    ensures Handle(json, p, f).failed
       <==> || (f.kind == 1 && (p.manifest.Got? || (p.manifest.Awaited? && json.toManifest(f.payload).None?)))
            || (f.kind == 2 && (p.request.Got? || (p.request.Awaited? && json.toPaths(f.payload).None?)))
            || (f.kind == 3 && BadStart(f.payload))
            || (f.kind == 6 && json.toPaths(f.payload).None?)
  {
    StartIsBadExactlyWhen(f.payload);
  }

  /** A manifest or a request nobody waits for, data and ends without a file, and other types change nothing. */
  lemma UnexpectedIsIgnored(json: Json, p: Proto, f: Frame)
    requires || (f.kind == 1 && p.manifest.NoFuture?) || (f.kind == 2 && p.request.NoFuture?)
             || (f.kind in {4, 5} && p.handle == None) || f.kind == 0 || f.kind > 7
    ensures Handle(json, p, f) == p
  {
  }

  /** Data for a file that was deleted while it is still open is counted, and the file does not come back. */
  lemma DeletedFileStaysDeleted(json: Json, p: Proto, f: Frame)
    requires !p.failed && f.kind == 4 && p.handle.Some? && p.handle.value !in p.files
    ensures var p' := Handle(json, p, f);
            && p'.files == p.files && p'.handle == p.handle && p'.received == p.received + |f.payload|
            && p'.bytesTransferred == p.bytesTransferred + |f.payload| && !p'.failed
  {
  }
}
