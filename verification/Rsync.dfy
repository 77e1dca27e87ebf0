/**
 * The rsync command's protocol object: manifests, requests, chunked files and
 * deletions over a framed stream.  The file tree is a flat map from paths,
 * relative to the working directory, to contents.
 */
module Rsync {
  import opened Bytes
  import opened Framing

  const MSG_MANIFEST: byte := 1
  const MSG_REQUEST: byte := 2
  const MSG_FILE_START: byte := 3
  const MSG_FILE_DATA: byte := 4
  const MSG_FILE_END: byte := 5
  const MSG_DELETE: byte := 6
  const MSG_DONE: byte := 7

  const CHUNK := 32768

  type Files = map<bytes, bytes>

  datatype Entry = Entry(path: bytes, size: nat, checksum: bytes)

  /** JSON text of manifests and path lists; parsing fails on anything else. */
  datatype Json = Json(
    ofManifest: seq<Entry> -> bytes, toManifest: bytes -> Option<seq<Entry>>,
    ofPaths: seq<bytes> -> bytes, toPaths: bytes -> Option<seq<bytes>>)

  ghost predicate Faithful(json: Json) {
    && (forall m :: json.toManifest(json.ofManifest(m)) == Some(m))
    && (forall l :: json.toPaths(json.ofPaths(l)) == Some(l))
  }

  /** A future that is not there, awaited, or resolved. */
  datatype Slot<T> = NoFuture | Awaited | Got(value: T)

  datatype Proto = Proto(
    files: Files, handle: Option<bytes>, announced: nat, received: nat,
    filesTransferred: nat, bytesTransferred: nat,
    manifest: Slot<seq<Entry>>, request: Slot<seq<bytes>>, done: bool, failed: bool)

  function NewProto(files: Files): Proto {
    Proto(files, None, 0, 0, 0, 0, NoFuture, NoFuture, false, false)
  }

  // ---------- receiving ----------

  datatype FileStart = FileStart(path: bytes, size: nat)

  /** Path length (2) + path + size (8). */
  function ParseStart(payload: bytes): Option<FileStart> {
    if |payload| < 2 then None
    else
      var n := ValueBE(payload[..2]);
      if |payload| < 10 + n || !Utf8(payload[2..2 + n]) then None
      else Some(FileStart(payload[2..2 + n], ValueBE(payload[2 + n..10 + n])))
  }

  /** One iteration of the dispatch in `_process_buffer`.  An exception tears the connection down. */
  function Handle(json: Json, p: Proto, f: Frame): Proto {
    if p.failed then p
    else if f.kind == MSG_MANIFEST then
      if p.manifest.NoFuture? then p
      else if p.manifest.Got? || json.toManifest(f.payload) == None then p.(failed := true)
      else p.(manifest := Got(json.toManifest(f.payload).value))
    else if f.kind == MSG_REQUEST then
      if p.request.NoFuture? then p
      else if p.request.Got? || json.toPaths(f.payload) == None then p.(failed := true)
      else p.(request := Got(json.toPaths(f.payload).value))
    else if f.kind == MSG_FILE_START then
      var start := ParseStart(f.payload);
      if start == None then p.(failed := true)
      else
        var path := start.value.path;
        p.(files := p.files[path := []], handle := Some(path), announced := start.value.size, received := 0)
    else if f.kind == MSG_FILE_DATA then
      if p.handle == None then p
      else
        var path := p.handle.value;
        p.(files := if path in p.files then p.files[path := p.files[path] + f.payload] else p.files,
           received := p.received + |f.payload|,
           bytesTransferred := p.bytesTransferred + |f.payload|)
    else if f.kind == MSG_FILE_END then
      if p.handle == None then p else p.(handle := None, filesTransferred := p.filesTransferred + 1)
    else if f.kind == MSG_DELETE then
      var paths := json.toPaths(f.payload);
      if paths == None then p.(failed := true)
      else p.(files := p.files - (set x | x in paths.value))
    else if f.kind == MSG_DONE then p.(done := true)
    else p
  }

  function HandleAll(json: Json, p: Proto, frames: seq<Frame>): Proto
    decreases |frames|
  {
    if frames == [] then p else HandleAll(json, Handle(json, p, frames[0]), frames[1..])
  }

  lemma {:induction false} HandleAllAppend(json: Json, p: Proto, a: seq<Frame>, b: seq<Frame>)
    ensures HandleAll(json, p, a + b) == HandleAll(json, HandleAll(json, p, a), b)
    decreases |a|
  {
    if a == [] {
      assert a + b == b;
    } else {
      HandleAllAppend(json, Handle(json, p, a[0]), a[1..], b);
      assert (a + b)[1..] == a[1..] + b;
    }
  }

  lemma HandleOne(json: Json, p: Proto, f: Frame)
    ensures HandleAll(json, p, [f]) == Handle(json, p, f)
  {
    assert [f][1..] == [];
    assert HandleAll(json, Handle(json, p, f), []) == Handle(json, p, f);
  }

  // ---------- sending a file ----------

  predicate Transferable(path: bytes, content: bytes) {
    |path| < 0x1_0000 && Utf8(path) && |content| < 0x1_0000_0000_0000_0000
  }

  function StartPayload(path: bytes, size: nat): bytes {
    BytesBE(|path|, 2) + path + BytesBE(size, 8)
  }

  function Chunks(content: bytes): seq<bytes>
    decreases |content|
  {
    if content == [] then []
    else if |content| <= CHUNK then [content] else [content[..CHUNK]] + Chunks(content[CHUNK..])
  }

  function DataFrames(chunks: seq<bytes>): seq<Frame> {
    if chunks == [] then [] else [Frame(MSG_FILE_DATA, 0, chunks[0])] + DataFrames(chunks[1..])
  }

  function FileFrames(path: bytes, content: bytes): seq<Frame> {
    [Frame(MSG_FILE_START, 0, StartPayload(path, |content|))] + DataFrames(Chunks(content))
    + [Frame(MSG_FILE_END, 0, [])]
  }

  /** The chunks are a file's content, none of them empty, and all but the last 32768 bytes long. */
  lemma {:induction false} ChunksSpellContent(content: bytes)
    ensures Flatten(Chunks(content)) == content
    ensures forall i :: 0 <= i < |Chunks(content)| ==> 0 < |Chunks(content)[i]| <= 32768
    ensures forall i :: 0 <= i < |Chunks(content)| - 1 ==> |Chunks(content)[i]| == 32768
    decreases |content|
  {
    if content != [] && |content| <= CHUNK {
      assert Flatten([content]) == content + Flatten([]);
    } else if content != [] {
      ChunksSpellContent(content[CHUNK..]);
      assert content == content[..CHUNK] + content[CHUNK..];
      assert Chunks(content)[1..] == Chunks(content[CHUNK..]);
    }
  }

  lemma ParseOfStartPayload(path: bytes, size: nat)
    requires |path| < 0x1_0000 && Utf8(path) && size < 0x1_0000_0000_0000_0000
    ensures ParseStart(StartPayload(path, size)) == Some(FileStart(path, size))
  {
    Pow256Values();
    ValueOfBytesBE(|path|, 2);
    ValueOfBytesBE(size, 8);
    PartsOfStart(path, BytesBE(|path|, 2), BytesBE(size, 8));
  }

  lemma PartsOfStart(path: bytes, n: bytes, size: bytes)
    requires |n| == 2 && |size| == 8
    ensures var s, m := n + path + size, 2 + |path|; s[..2] == n && s[2..m] == path && s[m..m + 8] == size
  {
    ThreeParts(n, path, size);
  }

  lemma ThreeParts(a: bytes, b: bytes, c: bytes)
    ensures var s, n := a + b + c, |a| + |b|; s[..|a|] == a && s[|a|..n] == b && s[n..n + |c|] == c
  {
  }

  predicate Receiving(p: Proto, path: bytes) {
    !p.failed && p.handle == Some(path) && path in p.files
  }

  lemma {:induction false} ReceiveChunks(json: Json, p: Proto, path: bytes, chunks: seq<bytes>)
    requires Receiving(p, path)
    ensures var n := |Flatten(chunks)|;
            HandleAll(json, p, DataFrames(chunks))
            == p.(files := p.files[path := p.files[path] + Flatten(chunks)],
                  received := p.received + n, bytesTransferred := p.bytesTransferred + n)
    decreases |chunks|
  {
    if chunks == [] {
      assert p.files[path] + [] == p.files[path];
      assert p.files[path := p.files[path]] == p.files;
    } else {
      var f := Frame(MSG_FILE_DATA, 0, chunks[0]);
      var p' := Handle(json, p, f);
      assert DataFrames(chunks)[1..] == DataFrames(chunks[1..]);
      ReceiveChunks(json, p', path, chunks[1..]);
      assert p.files[path] + chunks[0] + Flatten(chunks[1..]) == p.files[path] + Flatten(chunks);
      assert p'.files[path := p.files[path] + Flatten(chunks)] == p.files[path := p.files[path] + Flatten(chunks)];
    }
  }

  lemma ReceiveStart(json: Json, p: Proto, path: bytes, size: nat)
    requires !p.failed && |path| < 0x1_0000 && Utf8(path) && size < 0x1_0000_0000_0000_0000
    ensures Handle(json, p, Frame(MSG_FILE_START, 0, StartPayload(path, size)))
         == p.(files := p.files[path := []], handle := Some(path), announced := size, received := 0)
  {
    ParseOfStartPayload(path, size);
    HandleStart(json, p, StartPayload(path, size), path, size);
  }

  lemma HandleStart(json: Json, p: Proto, payload: bytes, path: bytes, size: nat)
    requires !p.failed && ParseStart(payload) == Some(FileStart(path, size))
    ensures Handle(json, p, Frame(MSG_FILE_START, 0, payload))
         == p.(files := p.files[path := []], handle := Some(path), announced := size, received := 0)
  {
  }

  lemma HandleAround(json: Json, p: Proto, first: Frame, middle: seq<Frame>, last: Frame)
    ensures HandleAll(json, p, [first] + middle + [last])
         == Handle(json, HandleAll(json, Handle(json, p, first), middle), last)
  {
    HandleAllAppend(json, p, [first] + middle, [last]);
    HandleAllAppend(json, p, [first], middle);
    HandleOne(json, p, first);
    HandleOne(json, HandleAll(json, Handle(json, p, first), middle), last);
  }

  /** A file sent is the file received, as many bytes of it as were announced, and it counts once. */
  lemma ReceiveFile(json: Json, p: Proto, path: bytes, content: bytes)
    requires !p.failed && Transferable(path, content)
    ensures HandleAll(json, p, FileFrames(path, content))
         == p.(files := p.files[path := content], handle := None, announced := |content|, received := |content|,
               filesTransferred := p.filesTransferred + 1, bytesTransferred := p.bytesTransferred + |content|)
  {
    ReceiveStart(json, p, path, |content|);
    ReceiveRest(json, p, path, content, Frame(MSG_FILE_START, 0, StartPayload(path, |content|)));
  }

  lemma ReceiveRest(json: Json, p: Proto, path: bytes, content: bytes, start: Frame)
    requires !p.failed
    requires Handle(json, p, start)
          == p.(files := p.files[path := []], handle := Some(path), announced := |content|, received := 0)
    ensures HandleAll(json, p, [start] + DataFrames(Chunks(content)) + [Frame(MSG_FILE_END, 0, [])])
         == p.(files := p.files[path := content], handle := None, announced := |content|, received := |content|,
               filesTransferred := p.filesTransferred + 1, bytesTransferred := p.bytesTransferred + |content|)
  {
    var p1 := Handle(json, p, start);
    ReceiveBody(json, p1, path, content);
    assert p1.files[path := content] == p.files[path := content];
    HandleAround(json, p, start, DataFrames(Chunks(content)), Frame(MSG_FILE_END, 0, []));
    EndOfFile(json, HandleAll(json, p1, DataFrames(Chunks(content))));
  }

  lemma EndOfFile(json: Json, p: Proto)
    requires !p.failed && p.handle.Some?
    ensures Handle(json, p, Frame(MSG_FILE_END, 0, []))
         == p.(handle := None, filesTransferred := p.filesTransferred + 1)
  {
  }

  lemma ReceiveBody(json: Json, p: Proto, path: bytes, content: bytes)
    requires Receiving(p, path) && p.files[path] == []
    ensures HandleAll(json, p, DataFrames(Chunks(content)))
         == p.(files := p.files[path := content], received := p.received + |content|,
               bytesTransferred := p.bytesTransferred + |content|)
  {
    ChunksSpellContent(content);
    ReceiveChunks(json, p, path, Chunks(content));
    assert [] + content == content;
  }

  // ---------- the object itself ----------

  class RsyncProtocol {
    const codec: Codec
    const json: Json
    var files: Files
    var handle: Option<bytes>
    var announced: nat
    var received: nat
    var filesTransferred: nat
    var bytesTransferred: nat
    var manifest: Slot<seq<Entry>>
    var request: Slot<seq<bytes>>
    var done: bool
    var failed: bool
    var buffer: bytes
    var wire: bytes

    ghost function Value(): Proto
      reads this
    {
      Proto(files, handle, announced, received, filesTransferred, bytesTransferred, manifest, request, done, failed)
    }

    constructor (codec: Codec, json: Json, files: Files)
      ensures Value() == NewProto(files) && buffer == [] && wire == [] && this.codec == codec && this.json == json
    {
      this.codec, this.json, this.files := codec, json, files;
      handle, announced, received, filesTransferred, bytesTransferred := None, 0, 0, 0, 0;
      manifest, request, done, failed, buffer, wire := NoFuture, NoFuture, false, false, [], [];
    }

    method HandleFile(f: Frame)
      requires !failed && f.kind in {MSG_FILE_START, MSG_FILE_DATA, MSG_FILE_END}
      modifies this`files, this`handle, this`announced, this`received, this`filesTransferred, this`bytesTransferred,
               this`failed
      ensures Value() == Handle(json, old(Value()), f)
    {
      if f.kind == MSG_FILE_START {
        var start := ParseStart(f.payload);
        if start == None {
          failed := true;
        } else {
          files, handle := files[start.value.path := []], Some(start.value.path);
          announced, received := start.value.size, 0;
        }
      } else if handle.Some? && f.kind == MSG_FILE_DATA {
        if handle.value in files {
          files := files[handle.value := files[handle.value] + f.payload];
        }
        received := received + |f.payload|;
        bytesTransferred := bytesTransferred + |f.payload|;
      } else if handle.Some? {
        handle, filesTransferred := None, filesTransferred + 1;
      }
    }

    method HandleFrame(f: Frame)
      modifies this`files, this`handle, this`announced, this`received, this`filesTransferred, this`bytesTransferred,
               this`manifest, this`request, this`done, this`failed
      ensures Value() == Handle(json, old(Value()), f)
    {
      if failed {
      } else if f.kind == MSG_MANIFEST {
        if !manifest.NoFuture? {
          var m := json.toManifest(f.payload);
          if manifest.Got? || m == None {
            failed := true;
          } else {
            manifest := Got(m.value);
          }
        }
      } else if f.kind == MSG_REQUEST {
        if !request.NoFuture? {
          var l := json.toPaths(f.payload);
          if request.Got? || l == None {
            failed := true;
          } else {
            request := Got(l.value);
          }
        }
      } else if f.kind == MSG_DELETE {
        var l := json.toPaths(f.payload);
        if l == None {
          failed := true;
        } else {
          files := files - (set x | x in l.value);
        }
      } else if f.kind == MSG_DONE {
        done := true;
      } else if f.kind in {MSG_FILE_START, MSG_FILE_DATA, MSG_FILE_END} {
        HandleFile(f);
      }
    }

    method OnData(data: bytes)
      requires Lawful(codec)
      modifies this
      ensures var d := Drain(codec, old(buffer) + data);
              Value() == HandleAll(json, old(Value()), d.frames) && buffer == d.rest && wire == old(wire)
    {
      buffer := buffer + data;
      ghost var all := Drain(codec, buffer);
      while codec.next(buffer).Complete?
        invariant wire == old(wire) && all.rest == Drain(codec, buffer).rest
        invariant HandleAll(json, Value(), Drain(codec, buffer).frames) == HandleAll(json, old(Value()), all.frames)
        decreases |buffer|
      {
        assert CutsWhatWasSent(codec, buffer);
        var p := codec.next(buffer);
        ghost var d := Drain(codec, buffer);
        assert d.frames[1..] == Drain(codec, buffer[p.size..]).frames;
        buffer := buffer[p.size..];
        HandleFrame(p.frame);
      }
    }

    /** The loop of `send_file`: reads of at most CHUNK bytes until one comes back empty. */
    method SendChunks(content: bytes)
      modifies this`wire, this`bytesTransferred
      ensures wire == old(wire) + EncodeAll(codec, DataFrames(Chunks(content)))
      ensures bytesTransferred == old(bytesTransferred) + |content|
    {
      var rest := content;
      while rest != []
        invariant wire + EncodeAll(codec, DataFrames(Chunks(rest)))
               == old(wire) + EncodeAll(codec, DataFrames(Chunks(content)))
        invariant bytesTransferred + |rest| == old(bytesTransferred) + |content|
        decreases |rest|
      {
        var n := if |rest| < CHUNK then |rest| else CHUNK;
        var f := Frame(MSG_FILE_DATA, 0, rest[..n]);
        FirstChunk(rest);
        EncodeFirst(codec, f, DataFrames(Chunks(rest[n..])));
        wire := wire + codec.encode(f);
        bytesTransferred := bytesTransferred + n;
        rest := rest[n..];
      }
    }

    method SendFile(path: bytes, content: bytes)
      requires Transferable(path, content)
      modifies this`wire, this`filesTransferred, this`bytesTransferred
      ensures wire == old(wire) + EncodeAll(codec, FileFrames(path, content))
      ensures filesTransferred == old(filesTransferred) + 1
      ensures bytesTransferred == old(bytesTransferred) + |content|
    {
      var start, end := Frame(MSG_FILE_START, 0, StartPayload(path, |content|)), Frame(MSG_FILE_END, 0, []);
      ghost var data := DataFrames(Chunks(content));
      ghost var before := wire;
      wire := wire + codec.encode(start);
      SendChunks(content);
      wire := wire + codec.encode(end);
      assert wire == before + (codec.encode(start) + EncodeAll(codec, data) + codec.encode(end));
      filesTransferred := filesTransferred + 1;
      EncodeAround(codec, start, data, end);
    }
  }

  lemma EncodeAround(c: Codec, first: Frame, middle: seq<Frame>, last: Frame)
    ensures EncodeAll(c, [first] + middle + [last]) == c.encode(first) + EncodeAll(c, middle) + c.encode(last)
  {
    EncodeAllAppend(c, [first] + middle, [last]);
    EncodeFirst(c, first, middle);
    EncodeFirst(c, last, []);
    assert [last] + [] == [last];
  }

  lemma FirstChunk(rest: bytes)
    requires rest != []
    ensures var n := if |rest| < CHUNK then |rest| else CHUNK;
            DataFrames(Chunks(rest)) == [Frame(MSG_FILE_DATA, 0, rest[..n])] + DataFrames(Chunks(rest[n..]))
  {
    var n := if |rest| < CHUNK then |rest| else CHUNK;
    FirstOfChunks(rest, n);
    DataOfCons(rest[..n], Chunks(rest[n..]));
  }

  lemma FirstOfChunks(rest: bytes, n: nat)
    requires rest != [] && n == (if |rest| < CHUNK then |rest| else CHUNK)
    ensures Chunks(rest) == [rest[..n]] + Chunks(rest[n..])
  {
    if |rest| <= CHUNK {
      assert rest[..n] == rest && rest[n..] == [];
      assert Chunks([]) == [];
      assert [rest] + [] == [rest];
    }
  }

  lemma DataOfCons(chunk: bytes, chunks: seq<bytes>)
    ensures DataFrames([chunk] + chunks) == [Frame(MSG_FILE_DATA, 0, chunk)] + DataFrames(chunks)
  {
    assert ([chunk] + chunks)[1..] == chunks;
  }

  // ---------- comparing manifests ----------

  /** The dict built from a manifest: a later entry for a path replaces an earlier one ... */
  function Dict(m: seq<Entry>): map<bytes, Entry> {
    if m == [] then map[] else Dict(m[..|m| - 1])[m[|m| - 1].path := m[|m| - 1]]
  }

  /** ... but keeps its place in the order of iteration. */
  function Paths(m: seq<Entry>): seq<bytes> {
    if m == [] then []
    else
      var before := Paths(m[..|m| - 1]);
      if m[|m| - 1].path in before then before else before + [m[|m| - 1].path]
  }

  predicate Changed(local: map<bytes, Entry>, remote: map<bytes, Entry>, path: bytes) {
    path in local && (path !in remote || remote[path].checksum != local[path].checksum)
  }

  function Select(paths: seq<bytes>, pick: bytes -> bool): seq<bytes> {
    if paths == [] then []
    else
      var before := Select(paths[..|paths| - 1], pick);
      if pick(paths[|paths| - 1]) then before + [paths[|paths| - 1]] else before
  }

  function ToSend(local: seq<Entry>, remote: seq<Entry>): seq<bytes> {
    var l, r := Dict(local), Dict(remote);
    Select(Paths(local), path => Changed(l, r, path))
  }

  function ToDelete(local: seq<Entry>, remote: seq<Entry>): seq<bytes> {
    var l := Dict(local);
    Select(Paths(remote), path => path !in l)
  }

  method BuildDict(m: seq<Entry>) returns (dict: map<bytes, Entry>, order: seq<bytes>)
    ensures dict == Dict(m) && order == Paths(m)
  {
    dict, order := map[], [];
    for i := 0 to |m|
      invariant dict == Dict(m[..i]) && order == Paths(m[..i])
      invariant forall p :: p in dict <==> p in order
    {
      assert m[..i + 1][..i] == m[..i];
      if m[i].path !in dict {
        order := order + [m[i].path];
      }
      dict := dict[m[i].path := m[i]];
    }
    assert m[..|m|] == m;
  }

  method CompareManifests(local: seq<Entry>, remote: seq<Entry>, delete: bool)
    returns (toSend: seq<bytes>, toDelete: seq<bytes>)
    ensures toSend == ToSend(local, remote)
    ensures toDelete == if delete then ToDelete(local, remote) else []
  {
    var localDict, localOrder := BuildDict(local);
    var remoteDict, remoteOrder := BuildDict(remote);
    PathsAreKeys(local);
    toSend := NewOrChanged(localDict, localOrder, remoteDict);
    toDelete := [];
    if delete {
      toDelete := Gone(localDict, remoteOrder);
    }
  }

  lemma SelectNext(paths: seq<bytes>, i: nat, pick: bytes -> bool)
    requires i < |paths|
    ensures Select(paths[..i + 1], pick) == Select(paths[..i], pick) + (if pick(paths[i]) then [paths[i]] else [])
  {
    assert paths[..i + 1][..i] == paths[..i];
  }

  /** The loop over the local files. */
  method NewOrChanged(local: map<bytes, Entry>, order: seq<bytes>, remote: map<bytes, Entry>)
    returns (toSend: seq<bytes>)
    requires forall path :: path in order ==> path in local
    ensures toSend == Select(order, path => Changed(local, remote, path))
  {
    toSend := [];
    ghost var changed := path => Changed(local, remote, path);
    for i := 0 to |order|
      invariant toSend == Select(order[..i], changed)
    {
      var path := order[i];
      SelectNext(order, i, changed);
      if path !in remote || remote[path].checksum != local[path].checksum {
        toSend := toSend + [path];
      }
    }
    assert order[..|order|] == order;
  }

  /** The loop over the remote files. */
  method Gone(local: map<bytes, Entry>, order: seq<bytes>) returns (toDelete: seq<bytes>)
    ensures toDelete == Select(order, path => path !in local)
  {
    toDelete := [];
    ghost var gone := path => path !in local;
    for i := 0 to |order|
      invariant toDelete == Select(order[..i], gone)
    {
      SelectNext(order, i, gone);
      if order[i] !in local {
        toDelete := toDelete + [order[i]];
      }
    }
    assert order[..|order|] == order;
  }

  lemma {:induction false} PathsAreKeys(m: seq<Entry>)
    ensures forall p :: p in Paths(m) <==> p in Dict(m)
    ensures Distinct(Paths(m))
  {
    if m == [] {
    } else {
      PathsAreKeys(m[..|m| - 1]);
    }
  }

  lemma {:induction false} SelectPicks(paths: seq<bytes>, pick: bytes -> bool)
    ensures forall p :: p in Select(paths, pick) <==> p in paths && pick(p)
    ensures Distinct(paths) ==> Distinct(Select(paths, pick))
  {
    if paths == [] {
    } else {
      var init, last := paths[..|paths| - 1], paths[|paths| - 1];
      SelectPicks(init, pick);
      assert paths == init + [last];
    }
  }

  /** What is sent and what is deleted, path by path, each path once. */
  lemma ComparisonIsExact(local: seq<Entry>, remote: seq<Entry>)
    ensures var l, r := Dict(local), Dict(remote);
            forall p :: p in ToSend(local, remote) <==> p in l && (p !in r || r[p].checksum != l[p].checksum)
    ensures forall p :: p in ToDelete(local, remote) <==> p in Dict(remote) && p !in Dict(local)
    ensures Distinct(ToSend(local, remote)) && Distinct(ToDelete(local, remote))
  {
    PathsAreKeys(local);
    PathsAreKeys(remote);
    var l, r := Dict(local), Dict(remote);
    SelectPicks(Paths(local), path => Changed(l, r, path));
    SelectPicks(Paths(remote), path => path !in l);
  }

  // ---------- duplicates, and the order of the results ----------

  /** Entry i is the last, or the first, of the manifest for its path. */
  predicate LastOf(m: seq<Entry>, i: nat) { i < |m| && forall j :: i < j < |m| ==> m[j].path != m[i].path }

  predicate FirstOf(m: seq<Entry>, i: nat) { i < |m| && forall j :: 0 <= j < i ==> m[j].path != m[i].path }

  /** Of several entries for a path the last one counts. */
  lemma {:induction false} LastEntryCounts(m: seq<Entry>, i: nat)
    requires LastOf(m, i)
    ensures m[i].path in Dict(m) && Dict(m)[m[i].path] == m[i]
    decreases |m|
  {
    var last := |m| - 1;
    if i < last {
      assert m[last].path != m[i].path;
      assert m[..last][i] == m[i];
      LastEntryCounts(m[..last], i);
    }
  }

  /** The positions at which a path occurs for the first time, in order. */
  function Firsts(m: seq<Entry>, n: nat): (at: seq<nat>)
    requires n <= |m|
    ensures forall k :: 0 <= k < |at| ==> at[k] < n && FirstOf(m, at[k])
    ensures forall k, l :: 0 <= k < l < |at| ==> at[k] < at[l]
  {
    if n == 0 then [] else if FirstOf(m, n - 1) then Firsts(m, n - 1) + [n - 1] else Firsts(m, n - 1)
  }

  lemma {:induction false} FirstsReachAll(m: seq<Entry>, n: nat, i: nat)
    requires i < n <= |m|
    ensures exists k :: 0 <= k < |Firsts(m, n)| && m[Firsts(m, n)[k]].path == m[i].path
    decreases n
  {
    var at := Firsts(m, n);
    if FirstOf(m, n - 1) && i == n - 1 {
      assert m[at[|at| - 1]].path == m[i].path;
    } else if i < n - 1 {
      FirstsReachAll(m, n - 1, i);
      var k :| 0 <= k < |Firsts(m, n - 1)| && m[Firsts(m, n - 1)[k]].path == m[i].path;
      assert m[at[k]].path == m[i].path;
    } else {
      var j :| 0 <= j < n - 1 && m[j].path == m[n - 1].path;
      FirstsReachAll(m, n - 1, j);
    }
  }

  /** A path keeps the place of its first entry in the order of iteration. */
  lemma {:induction false} PathsByFirstEntry(m: seq<Entry>, n: nat)
    requires n <= |m|
    ensures |Paths(m[..n])| == |Firsts(m, n)|
    ensures forall k :: 0 <= k < |Firsts(m, n)| ==> Paths(m[..n])[k] == m[Firsts(m, n)[k]].path
    decreases n
  {
    if n == 0 {
    } else {
      PathsByFirstEntry(m, n - 1);
      assert m[..n][..n - 1] == m[..n - 1] && m[..n][n - 1] == m[n - 1];
      var before := Paths(m[..n - 1]);
      if m[n - 1].path in before {
        var k :| 0 <= k < |before| && before[k] == m[n - 1].path;
        assert m[Firsts(m, n - 1)[k]].path == m[n - 1].path;
      } else if !FirstOf(m, n - 1) {
        var j :| 0 <= j < n - 1 && m[j].path == m[n - 1].path;
        FirstsReachAll(m, n - 1, j);
        assert false;
      }
    }
  }

  lemma SelectOne(x: bytes, pick: bytes -> bool)
    ensures Select([x], pick) == if pick(x) then [x] else []
  {
    assert [x][..0] == [];
    assert Select([], pick) == [];
  }

  /** What is picked from two lists in a row is picked from the first, then from the second. */
  lemma {:induction false} SelectInOrder(a: seq<bytes>, b: seq<bytes>, pick: bytes -> bool)
    ensures Select(a + b, pick) == Select(a, pick) + Select(b, pick)
    decreases |b|
  {
    if b == [] {
      assert a + b == a && Select(a, pick) + [] == Select(a, pick);
    } else {
      var front, x := b[..|b| - 1], b[|b| - 1];
      SelectInOrder(a, front, pick);
      SelectSnoc(a + front, x, pick);
      SelectSnoc(front, x, pick);
      assert a + b == (a + front) + [x] && b == front + [x];
      Associative(Select(a, pick), Select(front, pick), if pick(x) then [x] else []);
    }
  }

  lemma SelectSnoc(front: seq<bytes>, x: bytes, pick: bytes -> bool)
    ensures Select(front + [x], pick) == Select(front, pick) + (if pick(x) then [x] else [])
  {
    assert (front + [x])[..|front|] == front;
    assert Select(front, pick) + [] == Select(front, pick);
  }
}
