/**
 * Whole rsync runs: the sending and the listening end, a byte link in each direction
 * that delivers in chunks of any size, and any interleaving of their steps.
 */
module RsyncRuns {
  import opened Bytes
  import opened Framing
  import opened WireFormats
  import opened Rsync

  /**
   * prefix: the destination directory relative to the working directory, "" or ending in a slash.
   * checksum: the file digest.  delete: the sender's flag.
   */
  datatype Config = Config(json: Json, checksum: bytes -> bytes, prefix: bytes, delete: bool)

  // ---------- trees and manifests ----------

  predicate StartsWith(path: bytes, prefix: bytes) { prefix <= path }

  /** The tree below a directory, by relative path. */
  function Below(files: Files, prefix: bytes): (r: Files)
    ensures forall p :: p in r <==> prefix + p in files
    ensures forall p :: p in r ==> r[p] == files[prefix + p]
  {
    var keys := set path | path in files && StartsWith(path, prefix) :: path[|prefix|..];
    assert forall p :: p in keys ==> prefix + p in files by {
      forall p | p in keys ensures prefix + p in files {
        var path :| path in files && StartsWith(path, prefix) && p == path[|prefix|..];
        assert path == prefix + p;
      }
    }
    assert forall p :: prefix + p in files ==> p in keys by {
      forall p | prefix + p in files ensures p in keys {
        assert StartsWith(prefix + p, prefix) && (prefix + p)[|prefix|..] == p;
      }
    }
    map p | p in keys :: files[prefix + p]
  }

  /** A scan of a tree lists every file once, in some order. */
  ghost predicate IsScan(m: seq<Entry>, files: Files, checksum: bytes -> bytes) {
    && (forall i, j :: 0 <= i < j < |m| ==> m[i].path != m[j].path)
    && (forall i :: 0 <= i < |m| ==>
          m[i].path in files && m[i].checksum == checksum(files[m[i].path]) && m[i].size == |files[m[i].path]|)
    && (forall p :: p in files ==> exists i :: 0 <= i < |m| && m[i].path == p)
  }

  lemma {:induction false} DictOfDistinct(m: seq<Entry>)
    requires forall i, j :: 0 <= i < j < |m| ==> m[i].path != m[j].path
    ensures forall i :: 0 <= i < |m| ==> m[i].path in Dict(m) && Dict(m)[m[i].path] == m[i]
    ensures forall p :: p in Dict(m) ==> exists i :: 0 <= i < |m| && m[i].path == p
  {
    if m == [] {
    } else {
      var init := m[..|m| - 1];
      DictOfDistinct(init);
      forall i | 0 <= i < |m| ensures m[i].path in Dict(m) && Dict(m)[m[i].path] == m[i] {
        if i < |init| { assert init[i] == m[i]; }
      }
      forall p | p in Dict(m) ensures exists i :: 0 <= i < |m| && m[i].path == p {
        if p != m[|m| - 1].path {
          assert p in Dict(init);
          var i :| 0 <= i < |init| && init[i].path == p;
          assert m[i].path == p;
        } else {
          assert m[|m| - 1].path == p;
        }
      }
    }
  }

  lemma DictOfScan(m: seq<Entry>, files: Files, checksum: bytes -> bytes)
    requires IsScan(m, files, checksum)
    ensures Dict(m).Keys == files.Keys
    ensures forall p :: p in files ==> Dict(m)[p].checksum == checksum(files[p])
  {
    DictOfDistinct(m);
    forall p | p in files ensures p in Dict(m) && Dict(m)[p].checksum == checksum(files[p]) {
      var i :| 0 <= i < |m| && m[i].path == p;
    }
    forall p | p in Dict(m) ensures p in files {
      var i :| 0 <= i < |m| && m[i].path == p;
    }
  }

  /** The files of `src` a destination tree lacks or has with another checksum. */
  function Stale(src: Files, dst: Files, checksum: bytes -> bytes): set<bytes> {
    set p | p in src && (p !in dst || checksum(dst[p]) != checksum(src[p]))
  }

  function Extra(src: Files, dst: Files): set<bytes> {
    dst.Keys - src.Keys
  }

  function Elements<T>(s: seq<T>): set<T> { set x | x in s }

  lemma ComparisonOfScans(ms: seq<Entry>, src: Files, mr: seq<Entry>, dst: Files, checksum: bytes -> bytes)
    requires IsScan(ms, src, checksum) && IsScan(mr, dst, checksum)
    ensures Elements(ToSend(ms, mr)) == Stale(src, dst, checksum) && Distinct(ToSend(ms, mr))
    ensures Elements(ToDelete(ms, mr)) == Extra(src, dst)
  {
    ComparisonIsExact(ms, mr);
    DictOfScan(ms, src, checksum);
    DictOfScan(mr, dst, checksum);
  }

  // ---------- what the sender emits ----------

  /** Frames sent, files and bytes counted, and whether every file could be packed. */
  datatype Emission = Emission(frames: seq<Frame>, files: nat, volume: nat, ok: bool)

  /** The requested files in order; one that is gone is skipped, one that cannot be packed raises. */
  function SendFiles(src: Files, paths: seq<bytes>): Emission
    decreases |paths|
  {
    if paths == [] then Emission([], 0, 0, true)
    else if paths[0] !in src then SendFiles(src, paths[1..])
    else if !Transferable(paths[0], src[paths[0]]) then Emission([], 0, 0, false)
    else
      var content := src[paths[0]];
      var rest := SendFiles(src, paths[1..]);
      Emission(FileFrames(paths[0], content) + rest.frames, 1 + rest.files, |content| + rest.volume, rest.ok)
  }

  function Closing(c: Config, toDelete: seq<bytes>): seq<Frame> {
    (if c.delete && toDelete != [] then [Frame(MSG_DELETE, 0, c.json.ofPaths(toDelete))] else [])
    + [Frame(MSG_DONE, 0, [])]
  }

  function Transfer(c: Config, src: Files, requested: seq<bytes>, toDelete: seq<bytes>): Emission {
    var e := SendFiles(src, requested);
    if e.ok then e.(frames := e.frames + Closing(c, toDelete)) else e
  }

  /** The frames that go out before packing the next one raises. */
  function Packed(k: Codec, frames: seq<Frame>): seq<Frame> {
    if frames == [] || !k.sendable(frames[0]) then [] else [frames[0]] + Packed(k, frames[1..])
  }

  // ---------- what the receiver makes of it ----------

  function Uploaded(dst: Files, src: Files, paths: seq<bytes>): Files
    decreases |paths|
  {
    if paths == [] then dst
    else Uploaded(if paths[0] in src then dst[paths[0] := src[paths[0]]] else dst, src, paths[1..])
  }

  function TotalSize(src: Files, paths: seq<bytes>): nat {
    if paths == [] then 0 else (if paths[0] in src then |src[paths[0]]| else 0) + TotalSize(src, paths[1..])
  }

  function Pick(src: Files, paths: set<bytes>): Files {
    map p | p in paths && p in src :: src[p]
  }

  lemma {:induction false} UploadedIsOverride(dst: Files, src: Files, paths: seq<bytes>)
    ensures Uploaded(dst, src, paths) == dst + Pick(src, Elements(paths))
    decreases |paths|
  {
    if paths == [] {
      assert Elements(paths) == {};
    } else {
      UploadedIsOverride(if paths[0] in src then dst[paths[0] := src[paths[0]]] else dst, src, paths[1..]);
      OverrideOne(dst, src, paths[0], Elements(paths[1..]));
      assert Elements(paths) == {paths[0]} + Elements(paths[1..]);
    }
  }

  lemma OverrideOne(dst: Files, src: Files, path: bytes, rest: set<bytes>)
    ensures (if path in src then dst[path := src[path]] else dst) + Pick(src, rest) == dst + Pick(src, {path} + rest)
  {
    if path !in src {
      assert Pick(src, {path} + rest) == Pick(src, rest);
    }
  }

  lemma {:induction false} ReceiveFiles(json: Json, p: Proto, src: Files, paths: seq<bytes>)
    requires !p.failed && p.handle == None && SendFiles(src, paths).ok
    ensures var e := SendFiles(src, paths); var p' := HandleAll(json, p, e.frames);
            && p' == p.(files := Uploaded(p.files, src, paths), announced := p'.announced, received := p'.received,
                        filesTransferred := p.filesTransferred + e.files,
                        bytesTransferred := p.bytesTransferred + e.volume)
            && e.volume == TotalSize(src, paths)
            && (p.received == p.announced ==> p'.received == p'.announced)
    decreases |paths|
  {
    if paths == [] {
    } else {
      var path := paths[0];
      if path in src {
        ReceiveFile(json, p, path, src[path]);
        HandleAllAppend(json, p, FileFrames(path, src[path]), SendFiles(src, paths[1..]).frames);
        ReceiveFiles(json, HandleAll(json, p, FileFrames(path, src[path])), src, paths[1..]);
      } else {
        ReceiveFiles(json, p, src, paths[1..]);
      }
    }
  }

  /** The tree a complete transfer leaves behind. */
  function Synced(c: Config, dst: Files, src: Files, sent: seq<bytes>, toDelete: seq<bytes>): Files {
    if c.delete then Uploaded(dst, src, sent) - Elements(toDelete) else Uploaded(dst, src, sent)
  }

  /** The receiver at DONE: the tree, counters equal to the sender's, and the last file as long as announced. */
  predicate Completed(c: Config, p: Proto, dst: Files, src: Files, sent: seq<bytes>, toDelete: seq<bytes>) {
    && p.files == Synced(c, dst, src, sent, toDelete)
    && p.filesTransferred == SendFiles(src, sent).files
    && p.bytesTransferred == SendFiles(src, sent).volume == TotalSize(src, sent)
    && p.received == p.announced
    && p.done && !p.failed
  }

  predicate Untouched(p: Proto, dst: Files) {
    && p.files == dst && p.handle == None && p.announced == p.received == 0
    && p.filesTransferred == 0 && p.bytesTransferred == 0 && !p.done && !p.failed
  }

  lemma ReceiveTransfer(c: Config, p: Proto, src: Files, sent: seq<bytes>, toDelete: seq<bytes>)
    requires Faithful(c.json) && Untouched(p, p.files) && Transfer(c, src, sent, toDelete).ok
    ensures Completed(c, HandleAll(c.json, p, Transfer(c, src, sent, toDelete).frames), p.files, src, sent, toDelete)
  {
    var e := SendFiles(src, sent);
    var tail := Closing(c, toDelete);
    ReceiveFiles(c.json, p, src, sent);
    HandleAllAppend(c.json, p, e.frames, tail);
    var p1 := HandleAll(c.json, p, e.frames);
    var doneFrame := Frame(MSG_DONE, 0, []);
    if c.delete && toDelete != [] {
      var deleteFrame := Frame(MSG_DELETE, 0, c.json.ofPaths(toDelete));
      assert tail == [deleteFrame] + [doneFrame];
      HandleAllAppend(c.json, p1, [deleteFrame], [doneFrame]);
      HandleOne(c.json, p1, deleteFrame);
      assert c.json.toPaths(c.json.ofPaths(toDelete)) == Some(toDelete);
      var p2 := Handle(c.json, p1, deleteFrame);
      assert p2.files == p1.files - Elements(toDelete);
      HandleOne(c.json, p2, doneFrame);
    } else {
      assert tail == [doneFrame];
      HandleOne(c.json, p1, doneFrame);
      assert toDelete == [] ==> p1.files - Elements(toDelete) == p1.files;
    }
  }

  // ---------- DONE comes last ----------

  predicate EndsWithDone(frames: seq<Frame>) {
    frames != [] && forall i :: 0 <= i < |frames| ==> (frames[i].kind == MSG_DONE <==> i == |frames| - 1)
  }

  predicate NoDone(frames: seq<Frame>) {
    forall i :: 0 <= i < |frames| ==> frames[i].kind != MSG_DONE
  }

  lemma {:induction false} DataFramesNoDone(chunks: seq<bytes>)
    ensures NoDone(DataFrames(chunks))
  {
    if chunks == [] {
    } else {
      DataFramesNoDone(chunks[1..]);
    }
  }

  lemma {:induction false} SendFilesNoDone(src: Files, paths: seq<bytes>)
    ensures NoDone(SendFiles(src, paths).frames)
    decreases |paths|
  {
    if paths == [] {
    } else {
      SendFilesNoDone(src, paths[1..]);
      if paths[0] in src {
        DataFramesNoDone(Chunks(src[paths[0]]));
      }
    }
  }

  lemma TransferEndsWithDone(c: Config, src: Files, paths: seq<bytes>, toDelete: seq<bytes>)
    ensures var e := Transfer(c, src, paths, toDelete); if e.ok then EndsWithDone(e.frames) else NoDone(e.frames)
  {
    SendFilesNoDone(src, paths);
  }

  lemma {:induction false} PackedIsSendable(k: Codec, frames: seq<Frame>)
    ensures AllSendable(k, Packed(k, frames)) && Packed(k, frames) <= frames
    ensures AllSendable(k, frames) ==> Packed(k, frames) == frames
    ensures !AllSendable(k, frames) ==> |Packed(k, frames)| < |frames|
  {
    if frames == [] {
    } else {
      PackedIsSendable(k, frames[1..]);
      assert frames == [frames[0]] + frames[1..];
      assert AllSendable(k, frames) <==> k.sendable(frames[0]) && AllSendable(k, frames[1..]) by {
        assert forall i :: 0 <= i < |frames[1..]| ==> frames[1..][i] == frames[i + 1];
        assert forall i :: 0 < i < |frames| ==> frames[i] == frames[1..][i - 1];
      }
    }
  }

  // ---------- the two ends ----------

  datatype SenderStage =
    | Connected
    | AwaitingManifest(scan: seq<Entry>)
    | Serving(scan: seq<Entry>, theirs: seq<Entry>, toDelete: seq<bytes>)
    | Finished(scan: seq<Entry>, theirs: seq<Entry>, toDelete: seq<bytes>)
    | Broken

  datatype ReceiverStage =
    | Listening
    | AwaitingTheirs(scan: seq<Entry>)
    | AwaitingFiles(scan: seq<Entry>, requested: seq<bytes>)
    | Aborted

  /** Both ends without the links; `source` and `before` are the two trees at the start. */
  datatype Net = Net(sender: Proto, receiver: Proto, stage: SenderStage, peer: ReceiverStage,
                     source: Files, before: Files)

  datatype Sys = Sys(net: Net, senderBuffer: bytes, toSender: bytes, receiverBuffer: bytes, toReceiver: bytes)

  /** A scan step carries the scan's result; it is enabled for exact scans only. */
  datatype Step =
    | ReceiverStart(m: seq<Entry>)
    | SenderStart(m: seq<Entry>)
    | SenderServe
    | ReceiverRequest
    | SenderTransfer
    | DeliverToSender(n: nat)
    | DeliverToReceiver(n: nat)

  datatype Effect = Effect(net: Net, toReceiver: seq<Frame>, toSender: seq<Frame>)

  function ManifestFrame(c: Config, m: seq<Entry>): Frame { Frame(MSG_MANIFEST, 0, c.json.ofManifest(m)) }

  function RequestFrame(c: Config, l: seq<bytes>): Frame { Frame(MSG_REQUEST, 0, c.json.ofPaths(l)) }

  function Deletions(c: Config, ms: seq<Entry>, mr: seq<Entry>): seq<bytes> {
    if c.delete then ToDelete(ms, mr) else []
  }

  /** The step of the listening end from its scan to `receive_manifest`. */
  function DoReceiverStart(k: Codec, c: Config, n: Net, m: seq<Entry>): Effect {
    if k.sendable(ManifestFrame(c, m))
    then Effect(n.(peer := AwaitingTheirs(m), receiver := n.receiver.(manifest := Awaited)), [], [ManifestFrame(c, m)])
    else Effect(n.(peer := Aborted), [], [])
  }

  /** The sender compares, announces its own tree and waits for a request. */
  function DoSenderServe(k: Codec, c: Config, n: Net): Effect
    requires n.stage.AwaitingManifest? && n.sender.manifest.Got?
  {
    var ms, mr := n.stage.scan, n.sender.manifest.value;
    var sender := n.sender.(manifest := NoFuture);
    if k.sendable(ManifestFrame(c, ms))
    then Effect(n.(stage := Serving(ms, mr, Deletions(c, ms, mr)), sender := sender.(request := Awaited)),
                [ManifestFrame(c, ms)], [])
    else Effect(n.(stage := Broken, sender := sender), [], [])
  }

  /** The receiver compares and requests what it lacks. */
  function DoReceiverRequest(k: Codec, c: Config, n: Net): Effect
    requires n.peer.AwaitingTheirs? && n.receiver.manifest.Got?
  {
    var l := ToSend(n.receiver.manifest.value, n.peer.scan);
    var receiver := n.receiver.(manifest := NoFuture);
    if k.sendable(RequestFrame(c, l))
    then Effect(n.(peer := AwaitingFiles(n.peer.scan, l), receiver := receiver), [], [RequestFrame(c, l)])
    else Effect(n.(peer := Aborted, receiver := receiver), [], [])
  }

  /** Files, deletions and DONE go out in one go. */
  function DoSenderTransfer(k: Codec, c: Config, n: Net): Effect
    requires n.stage.Serving? && n.sender.request.Got?
  {
    var e := Transfer(c, n.sender.files, n.sender.request.value, n.stage.toDelete);
    var out := Packed(k, e.frames);
    var whole := e.ok && |out| == |e.frames|;
    Effect(n.(stage := if whole then Finished(n.stage.scan, n.stage.theirs, n.stage.toDelete) else Broken,
              sender := n.sender.(request := NoFuture, filesTransferred := n.sender.filesTransferred + e.files,
                                  bytesTransferred := n.sender.bytesTransferred + e.volume)),
           out, [])
  }

  ghost function Local(k: Codec, c: Config, n: Net, step: Step): Effect {
    match step
    case ReceiverStart(m) =>
      if n.peer.Listening? && IsScan(m, Below(n.receiver.files, c.prefix), c.checksum)
      then DoReceiverStart(k, c, n, m) else Effect(n, [], [])
    case SenderStart(m) =>
      if n.stage.Connected? && IsScan(m, n.sender.files, c.checksum)
      then Effect(n.(stage := AwaitingManifest(m), sender := n.sender.(manifest := Awaited)), [], [])
      else Effect(n, [], [])
    case SenderServe =>
      if n.stage.AwaitingManifest? && n.sender.manifest.Got? then DoSenderServe(k, c, n) else Effect(n, [], [])
    case ReceiverRequest =>
      if n.peer.AwaitingTheirs? && n.receiver.manifest.Got? then DoReceiverRequest(k, c, n) else Effect(n, [], [])
    case SenderTransfer =>
      if n.stage.Serving? && n.sender.request.Got? then DoSenderTransfer(k, c, n) else Effect(n, [], [])
    case DeliverToSender(_) => Effect(n, [], [])
    case DeliverToReceiver(_) => Effect(n, [], [])
  }

  ghost function Do(k: Codec, c: Config, s: Sys, step: Step): Sys {
    match step
    case DeliverToReceiver(n) =>
      var m := Min(n, |s.toReceiver|);
      var d := Drain(k, s.receiverBuffer + s.toReceiver[..m]);
      s.(net := s.net.(receiver := HandleAll(c.json, s.net.receiver, d.frames)),
         receiverBuffer := d.rest, toReceiver := s.toReceiver[m..])
    case DeliverToSender(n) =>
      var m := Min(n, |s.toSender|);
      var d := Drain(k, s.senderBuffer + s.toSender[..m]);
      s.(net := s.net.(sender := HandleAll(c.json, s.net.sender, d.frames)),
         senderBuffer := d.rest, toSender := s.toSender[m..])
    case _ =>
      var e := Local(k, c, s.net, step);
      s.(net := e.net, toReceiver := s.toReceiver + EncodeAll(k, e.toReceiver),
         toSender := s.toSender + EncodeAll(k, e.toSender))
  }

  function Start(src: Files, dst: Files): Sys {
    Sys(Net(NewProto(src), NewProto(dst), Connected, Listening, src, dst), [], [], [], [])
  }

  ghost function Run(k: Codec, c: Config, src: Files, dst: Files, steps: seq<Step>): Sys {
    if steps == [] then Start(src, dst)
    else Do(k, c, Run(k, c, src, dst, steps[..|steps| - 1]), steps[|steps| - 1])
  }

  // ---------- the invariant ----------

  /** A run that broke down never completes. */
  predicate Dead(n: Net, p: seq<Frame>, q: seq<Frame>) {
    && !n.receiver.done && NoDone(p)
    && (n.stage.Broken? ||
        (n.peer.Aborted? && !n.stage.Finished? && !n.sender.request.Got? &&
         forall i :: 0 <= i < |q| ==> q[i].kind != MSG_REQUEST))
  }

  /** Before the receiver has asked for anything; p and q are in flight to the receiver and to the sender. */
  ghost predicate Greeting(c: Config, n: Net, p: seq<Frame>, q: seq<Frame>) {
    && Untouched(n.receiver, n.before) && n.sender.request == NoFuture && p == []
    && (match n.peer
        case Listening => q == [] && !n.sender.manifest.Got? && n.receiver.manifest == NoFuture
        case AwaitingTheirs(mr) =>
          && IsScan(mr, Below(n.before, c.prefix), c.checksum) && n.receiver.manifest == Awaited
          && (q == [] || (q == [ManifestFrame(c, mr)] && !n.sender.manifest.Got?))
          && (n.sender.manifest.Got? ==> n.sender.manifest.value == mr)
        case _ => false)
    && (match n.stage
        case Connected => n.sender.manifest == NoFuture
        case AwaitingManifest(ms) => IsScan(ms, n.sender.files, c.checksum) && !n.sender.manifest.NoFuture?
        case _ => false)
  }

  /** Both manifests are known to their readers or on their way, the request not yet served. */
  ghost predicate Negotiating(c: Config, n: Net, p: seq<Frame>, q: seq<Frame>) {
    && Untouched(n.receiver, n.before) && n.sender.manifest == NoFuture
    && n.stage.Serving? && n.stage.toDelete == Deletions(c, n.stage.scan, n.stage.theirs)
    && IsScan(n.stage.scan, n.sender.files, c.checksum)
    && IsScan(n.stage.theirs, Below(n.before, c.prefix), c.checksum)
    && (match n.peer
        case AwaitingTheirs(mr) =>
          && mr == n.stage.theirs && n.sender.request == Awaited && q == []
          && ((p == [ManifestFrame(c, n.stage.scan)] && n.receiver.manifest == Awaited)
              || (p == [] && n.receiver.manifest == Got(n.stage.scan)))
        case AwaitingFiles(mr, l) =>
          && mr == n.stage.theirs && l == ToSend(n.stage.scan, mr) && p == []
          && ((q == [RequestFrame(c, l)] && n.sender.request == Awaited) || (q == [] && n.sender.request == Got(l)))
        case _ => false)
  }

  /** Everything has been sent; handling what is in flight completes the receiver. */
  ghost predicate Transferring(c: Config, n: Net, p: seq<Frame>, q: seq<Frame>) {
    && n.stage.Finished? && q == [] && n.peer.AwaitingFiles?
    && n.peer.requested == ToSend(n.stage.scan, n.stage.theirs)
    && IsScan(n.stage.scan, n.sender.files, c.checksum)
    && IsScan(n.stage.theirs, Below(n.before, c.prefix), c.checksum)
    && (var sent := ToSend(n.stage.scan, n.stage.theirs);
        && Completed(c, HandleAll(c.json, n.receiver, p), n.before, n.sender.files, sent,
                     Deletions(c, n.stage.scan, n.stage.theirs))
        && SendFiles(n.sender.files, sent).ok
        && n.sender.filesTransferred == SendFiles(n.sender.files, sent).files
        && n.sender.bytesTransferred == SendFiles(n.sender.files, sent).volume)
    && (if n.receiver.done then p == [] else EndsWithDone(p))
  }

  ghost predicate Inv(c: Config, n: Net, p: seq<Frame>, q: seq<Frame>) {
    || Dead(n, p, q)
    || (&& !n.sender.failed && n.sender.files == n.source
        && (n.stage.Finished? || (n.sender.filesTransferred == 0 && n.sender.bytesTransferred == 0))
        && (Greeting(c, n, p, q) || Negotiating(c, n, p, q) || Transferring(c, n, p, q)))
  }

  // ---------- handling one frame ----------

  lemma SenderHandles(c: Config, n: Net, p: seq<Frame>, q: seq<Frame>)
    requires Faithful(c.json) && Inv(c, n, p, q) && q != []
    ensures Inv(c, n.(sender := Handle(c.json, n.sender, q[0])), p, q[1..])
  {
    var n' := n.(sender := Handle(c.json, n.sender, q[0]));
    if Dead(n, p, q) {
      assert Dead(n', p, q[1..]);
    } else if Greeting(c, n, p, q) {
      SenderHandlesManifest(c, n, p, q);
    } else {
      SenderHandlesRequest(c, n, p, q);
    }
  }

  lemma SenderHandlesManifest(c: Config, n: Net, p: seq<Frame>, q: seq<Frame>)
    requires Faithful(c.json) && Greeting(c, n, p, q) && q != [] && !n.sender.failed
    ensures var n' := n.(sender := Handle(c.json, n.sender, q[0]));
            && Greeting(c, n', p, q[1..])
            && n'.sender == n.sender.(manifest := n'.sender.manifest)
  {
    var mr := n.peer.scan;
    assert c.json.toManifest(c.json.ofManifest(mr)) == Some(mr);
    assert q[1..] == [];
  }

  lemma SenderHandlesRequest(c: Config, n: Net, p: seq<Frame>, q: seq<Frame>)
    requires Faithful(c.json) && Negotiating(c, n, p, q) && q != [] && !n.sender.failed
    ensures var n' := n.(sender := Handle(c.json, n.sender, q[0]));
            && Negotiating(c, n', p, q[1..])
            && n'.sender == n.sender.(request := n'.sender.request)
  {
    var l := n.peer.requested;
    assert c.json.toPaths(c.json.ofPaths(l)) == Some(l);
    assert q[1..] == [];
  }

  lemma {:induction false} FailedStays(json: Json, p: Proto, frames: seq<Frame>)
    requires p.failed
    ensures HandleAll(json, p, frames) == p
    decreases |frames|
  {
    if frames == [] {
    } else {
      FailedStays(json, p, frames[1..]);
    }
  }

  lemma ReceiverHandles(c: Config, n: Net, p: seq<Frame>, q: seq<Frame>)
    requires Faithful(c.json) && Inv(c, n, p, q) && p != []
    ensures Inv(c, n.(receiver := Handle(c.json, n.receiver, p[0])), p[1..], q)
  {
    var n' := n.(receiver := Handle(c.json, n.receiver, p[0]));
    if Dead(n, p, q) {
      assert Dead(n', p[1..], q);
    } else if Negotiating(c, n, p, q) {
      var ms := n.stage.scan;
      assert c.json.toManifest(c.json.ofManifest(ms)) == Some(ms);
      assert p[1..] == [];
      assert Negotiating(c, n', p[1..], q);
    } else {
      assert Transferring(c, n, p, q);
      assert HandleAll(c.json, n.receiver, p) == HandleAll(c.json, n'.receiver, p[1..]);
      if n'.receiver.failed {
        FailedStays(c.json, n'.receiver, p[1..]);
      }
      assert |p| == 1 ==> p[1..] == [];
      assert Transferring(c, n', p[1..], q);
    }
  }

  lemma {:induction false} SenderHandlesAll(c: Config, n: Net, p: seq<Frame>, a: seq<Frame>, q: seq<Frame>)
    requires Faithful(c.json) && Inv(c, n, p, a + q)
    ensures Inv(c, n.(sender := HandleAll(c.json, n.sender, a)), p, q)
    decreases |a|
  {
    if a == [] {
      assert a + q == q;
    } else {
      assert (a + q)[0] == a[0] && (a + q)[1..] == a[1..] + q;
      SenderHandles(c, n, p, a + q);
      SenderHandlesAll(c, n.(sender := Handle(c.json, n.sender, a[0])), p, a[1..], q);
    }
  }

  lemma {:induction false} ReceiverHandlesAll(c: Config, n: Net, a: seq<Frame>, p: seq<Frame>, q: seq<Frame>)
    requires Faithful(c.json) && Inv(c, n, a + p, q)
    ensures Inv(c, n.(receiver := HandleAll(c.json, n.receiver, a)), p, q)
    decreases |a|
  {
    if a == [] {
      assert a + p == p;
    } else {
      assert (a + p)[0] == a[0] && (a + p)[1..] == a[1..] + p;
      ReceiverHandles(c, n, a + p, q);
      ReceiverHandlesAll(c, n.(receiver := Handle(c.json, n.receiver, a[0])), a[1..], p, q);
    }
  }

  // ---------- local steps ----------

  lemma ServeKeeps(k: Codec, c: Config, n: Net, p: seq<Frame>, q: seq<Frame>)
    requires Inv(c, n, p, q) && n.stage.AwaitingManifest? && n.sender.manifest.Got?
    ensures var e := DoSenderServe(k, c, n); Inv(c, e.net, p + e.toReceiver, q + e.toSender)
  {
    var e := DoSenderServe(k, c, n);
    assert q + [] == q && p + [] == p;
    if Dead(n, p, q) || e.net.stage.Broken? {
      assert Dead(e.net, p + e.toReceiver, q);
    } else {
      assert Negotiating(c, e.net, p + e.toReceiver, q);
    }
  }

  lemma RequestKeeps(k: Codec, c: Config, n: Net, p: seq<Frame>, q: seq<Frame>)
    requires Inv(c, n, p, q) && n.peer.AwaitingTheirs? && n.receiver.manifest.Got?
    ensures var e := DoReceiverRequest(k, c, n); Inv(c, e.net, p + e.toReceiver, q + e.toSender)
  {
    var e := DoReceiverRequest(k, c, n);
    assert q + [] == q && p + [] == p;
    if Dead(n, p, q) || e.net.peer.Aborted? {
      assert Dead(e.net, p, q + e.toSender);
    } else {
      assert q + e.toSender == e.toSender;
      assert Negotiating(c, e.net, p, q + e.toSender);
    }
  }

  lemma TransferKeeps(k: Codec, c: Config, n: Net, p: seq<Frame>, q: seq<Frame>)
    requires Faithful(c.json) && Inv(c, n, p, q) && n.stage.Serving? && n.sender.request.Got?
    ensures var e := DoSenderTransfer(k, c, n); Inv(c, e.net, p + e.toReceiver, q + e.toSender)
  {
    var e := DoSenderTransfer(k, c, n);
    assert Negotiating(c, n, p, q);
    assert q + [] == q && p + e.toReceiver == e.toReceiver;
    if e.net.stage.Broken? {
      TransferBreaks(k, c, n);
      assert Dead(e.net, e.toReceiver, q);
    } else {
      TransferCompletes(k, c, n, p, q);
    }
  }

  /** What goes out before the sender breaks down holds no DONE. */
  lemma TransferBreaks(k: Codec, c: Config, n: Net)
    requires n.stage.Serving? && n.sender.request.Got? && DoSenderTransfer(k, c, n).net.stage.Broken?
    ensures NoDone(DoSenderTransfer(k, c, n).toReceiver)
  {
    var src, l, del := n.sender.files, n.sender.request.value, n.stage.toDelete;
    TransferEndsWithDone(c, src, l, del);
    PackedIsSendable(k, Transfer(c, src, l, del).frames);
  }

  lemma TransferCompletes(k: Codec, c: Config, n: Net, p: seq<Frame>, q: seq<Frame>)
    requires Faithful(c.json) && Negotiating(c, n, p, q) && n.sender.request.Got?
    requires n.sender.filesTransferred == 0 && n.sender.bytesTransferred == 0
    requires !DoSenderTransfer(k, c, n).net.stage.Broken?
    ensures var e := DoSenderTransfer(k, c, n); Transferring(c, e.net, e.toReceiver, q)
  {
    var e := DoSenderTransfer(k, c, n);
    var src, l, del := n.sender.files, n.sender.request.value, n.stage.toDelete;
    TransferEndsWithDone(c, src, l, del);
    PackedIsSendable(k, Transfer(c, src, l, del).frames);
    assert e.toReceiver == Transfer(c, src, l, del).frames;
    ReceiveTransfer(c, n.receiver, src, l, del);
  }

  lemma LocalKeeps(k: Codec, c: Config, n: Net, p: seq<Frame>, q: seq<Frame>, step: Step)
    requires Faithful(c.json) && Inv(c, n, p, q)
    ensures var e := Local(k, c, n, step); Inv(c, e.net, p + e.toReceiver, q + e.toSender)
  {
    var e := Local(k, c, n, step);
    assert p + [] == p && q + [] == q;
    match step
    case ReceiverStart(m) =>
      if Dead(n, p, q) {
        assert Dead(e.net, p, q + e.toSender);
      } else if n.peer.Listening? && IsScan(m, Below(n.receiver.files, c.prefix), c.checksum) {
        if e.net.peer.Aborted? {
          assert Dead(e.net, p, q);
        } else {
          assert q + e.toSender == [ManifestFrame(c, m)];
          assert Greeting(c, e.net, p, q + e.toSender);
        }
      }
    case SenderStart(m) =>
      if Dead(n, p, q) {
        assert Dead(e.net, p, q);
      } else if n.stage.Connected? {
        assert Greeting(c, n, p, q);
        assert Greeting(c, e.net, p, q);
      }
    case SenderServe => if n.stage.AwaitingManifest? && n.sender.manifest.Got? { ServeKeeps(k, c, n, p, q); }
    case ReceiverRequest => if n.peer.AwaitingTheirs? && n.receiver.manifest.Got? { RequestKeeps(k, c, n, p, q); }
    case SenderTransfer => if n.stage.Serving? && n.sender.request.Got? { TransferKeeps(k, c, n, p, q); }
    case _ =>
  }

  lemma LocalFramesSendable(k: Codec, c: Config, n: Net, step: Step)
    ensures var e := Local(k, c, n, step); AllSendable(k, e.toReceiver) && AllSendable(k, e.toSender)
  {
    if step.SenderTransfer? && n.stage.Serving? && n.sender.request.Got? {
      PackedIsSendable(k, Transfer(c, n.sender.files, n.sender.request.value, n.stage.toDelete).frames);
    }
  }

  // ---------- whole runs over the byte links ----------

  ghost predicate SysInv(k: Codec, c: Config, s: Sys) {
    && LinkOk(k, s.senderBuffer, s.toSender) && LinkOk(k, s.receiverBuffer, s.toReceiver)
    && Inv(c, s.net, InFlight(k, s.receiverBuffer, s.toReceiver), InFlight(k, s.senderBuffer, s.toSender))
  }

  lemma StepKeeps(k: Codec, c: Config, s: Sys, step: Step)
    requires Lawful(k) && Faithful(c.json) && SysInv(k, c, s)
    ensures SysInv(k, c, Do(k, c, s, step))
  {
    var p, q := InFlight(k, s.receiverBuffer, s.toReceiver), InFlight(k, s.senderBuffer, s.toSender);
    match step
    case DeliverToReceiver(n) =>
      var m := Min(n, |s.toReceiver|);
      var d := Drain(k, s.receiverBuffer + s.toReceiver[..m]);
      DeliverOnLink(k, s.receiverBuffer, s.toReceiver, m);
      ReceiverHandlesAll(c, s.net, d.frames, InFlight(k, d.rest, s.toReceiver[m..]), q);
    case DeliverToSender(n) =>
      var m := Min(n, |s.toSender|);
      var d := Drain(k, s.senderBuffer + s.toSender[..m]);
      DeliverOnLink(k, s.senderBuffer, s.toSender, m);
      SenderHandlesAll(c, s.net, p, d.frames, InFlight(k, d.rest, s.toSender[m..]));
    case _ =>
      var e := Local(k, c, s.net, step);
      LocalFramesSendable(k, c, s.net, step);
      SendOnLink(k, s.receiverBuffer, s.toReceiver, e.toReceiver);
      SendOnLink(k, s.senderBuffer, s.toSender, e.toSender);
      LocalKeeps(k, c, s.net, p, q, step);
  }

  lemma {:induction false} RunKeeps(k: Codec, c: Config, src: Files, dst: Files, steps: seq<Step>)
    requires Lawful(k) && Faithful(c.json)
    ensures SysInv(k, c, Run(k, c, src, dst, steps))
    decreases |steps|
  {
    if steps == [] {
      EmptyLink(k);
      assert Greeting(c, Start(src, dst).net, [], []);
    } else {
      RunKeeps(k, c, src, dst, steps[..|steps| - 1]);
      StepKeeps(k, c, Run(k, c, src, dst, steps[..|steps| - 1]), steps[|steps| - 1]);
    }
  }

  lemma StepKeepsTrees(k: Codec, c: Config, s: Sys, step: Step)
    ensures var n := Do(k, c, s, step).net; n.source == s.net.source && n.before == s.net.before
  {
    if !step.DeliverToSender? && !step.DeliverToReceiver? {
      LocalKeepsTrees(k, c, s.net, step);
    }
  }

  lemma LocalKeepsTrees(k: Codec, c: Config, n: Net, step: Step)
    ensures var n' := Local(k, c, n, step).net; n'.source == n.source && n'.before == n.before
  {
  }

  /** The two starting trees are constants of a run. */
  lemma {:induction false} RunKeepsTrees(k: Codec, c: Config, src: Files, dst: Files, steps: seq<Step>)
    ensures var n := Run(k, c, src, dst, steps).net; n.source == src && n.before == dst
    decreases |steps|
  {
    if steps == [] {
    } else {
      RunKeepsTrees(k, c, src, dst, steps[..|steps| - 1]);
      StepKeepsTrees(k, c, Run(k, c, src, dst, steps[..|steps| - 1]), steps[|steps| - 1]);
    }
  }

  // ---------- the theorems ----------

  function Written(c: Config, src: Files, dst: Files): set<bytes> {
    Stale(src, Below(dst, c.prefix), c.checksum)
  }

  function Removed(c: Config, src: Files, dst: Files): set<bytes> {
    if c.delete then Extra(src, Below(dst, c.prefix)) else {}
  }

  /** The tree after a complete sync: the stale files written, the extra ones removed. */
  function After(c: Config, src: Files, dst: Files): Files {
    dst + Pick(src, Written(c, src, dst)) - Removed(c, src, dst)
  }

  lemma SyncedIsAfter(c: Config, src: Files, dst: Files, ms: seq<Entry>, mr: seq<Entry>)
    requires IsScan(ms, src, c.checksum) && IsScan(mr, Below(dst, c.prefix), c.checksum)
    ensures Synced(c, dst, src, ToSend(ms, mr), Deletions(c, ms, mr)) == After(c, src, dst)
  {
    ComparisonOfScans(ms, src, mr, Below(dst, c.prefix), c.checksum);
    UploadedIsOverride(dst, src, ToSend(ms, mr));
    var u := Uploaded(dst, src, ToSend(ms, mr));
    assert u - {} == u;
  }

  lemma {:induction false} CountOfFiles(src: Files, paths: seq<bytes>)
    requires SendFiles(src, paths).ok && forall p :: p in paths ==> p in src
    ensures SendFiles(src, paths).files == |paths|
    decreases |paths|
  {
    if paths == [] {
    } else {
      assert paths[0] in src;
      CountOfFiles(src, paths[1..]);
    }
  }

  /**
   * In every run, once the receiver has seen DONE: exactly the stale files were written
   * and the extra ones removed, the requested files are the stale ones, each once, both
   * ends count that many files, and both byte counters are their total size; the last file
   * has the announced length.
   */
  lemma DoneMeansSynced(c: Config, src: Files, dst: Files, steps: seq<Step>)
    requires Faithful(c.json)
    ensures var n := Run(Fixed(0), c, src, dst, steps).net;
            n.receiver.done ==>
              && n.receiver.files == After(c, src, dst)
              && n.peer.AwaitingFiles? && n.receiver.received == n.receiver.announced
              && (var requested := n.peer.requested;
                  && Elements(requested) == Written(c, src, dst) && Distinct(requested)
                  && n.sender.filesTransferred == n.receiver.filesTransferred == |requested|
                  && n.sender.bytesTransferred == n.receiver.bytesTransferred == TotalSize(src, requested))
  {
    FixedLawful(0);
    RunKeeps(Fixed(0), c, src, dst, steps);
    RunKeepsTrees(Fixed(0), c, src, dst, steps);
    var s := Run(Fixed(0), c, src, dst, steps);
    var n, p := s.net, InFlight(Fixed(0), s.receiverBuffer, s.toReceiver);
    var q := InFlight(Fixed(0), s.senderBuffer, s.toSender);
    if n.receiver.done {
      assert Transferring(c, n, p, q);
      assert HandleAll(c.json, n.receiver, p) == n.receiver;
      SyncedIsAfter(c, src, dst, n.stage.scan, n.stage.theirs);
      ComparisonOfScans(n.stage.scan, src, n.stage.theirs, Below(dst, c.prefix), c.checksum);
      RequestedExist(c, src, dst, n.peer.requested);
      CountOfFiles(src, n.peer.requested);
    }
  }

  lemma RequestedExist(c: Config, src: Files, dst: Files, requested: seq<bytes>)
    requires Elements(requested) == Written(c, src, dst)
    ensures forall p :: p in requested ==> p in src
  {
    forall p | p in requested ensures p in src {
      assert p in Elements(requested);
    }
  }

  /** Checksums tell apart the contents the two trees hold under one path. */
  ghost predicate TellsApart(checksum: bytes -> bytes, src: Files, dst: Files) {
    forall p :: p in src && p in dst && checksum(src[p]) == checksum(dst[p]) ==> src[p] == dst[p]
  }

  /** What a sync is for: a mirror of the source, or the source laid over the destination. */
  function Goal(c: Config, src: Files, below: Files): Files {
    if c.delete then src else below + src
  }

  predicate Converged(c: Config, src: Files, dst: Files, after: Files) {
    Below(after, c.prefix) == Goal(c, src, Below(dst, c.prefix))
  }

  lemma BelowNothing(files: Files)
    ensures Below(files, []) == files
  {
    forall p: bytes ensures [] + p == p {
    }
    assert Below(files, []).Keys == files.Keys;
  }

  /** Writing the stale files of a tree and removing the extra ones reaches the goal. */
  lemma OverwritingReachesGoal(c: Config, src: Files, dst: Files)
    requires TellsApart(c.checksum, src, dst)
    ensures dst + Pick(src, Stale(src, dst, c.checksum)) - (if c.delete then Extra(src, dst) else {})
         == Goal(c, src, dst)
  {
  }

  /** In the working directory itself a sync always converges. */
  lemma ConvergesInPlace(c: Config, src: Files, dst: Files)
    requires c.prefix == [] && TellsApart(c.checksum, src, dst)
    ensures Converged(c, src, dst, After(c, src, dst))
  {
    BelowNothing(dst);
    BelowNothing(After(c, src, dst));
    OverwritingReachesGoal(c, src, dst);
  }

  /** A tree that needs no file and no deletion is converged as it stands. */
  lemma ConvergesWhenNothingToDo(c: Config, src: Files, dst: Files)
    requires TellsApart(c.checksum, src, Below(dst, c.prefix))
    requires Written(c, src, dst) == {} && Removed(c, src, dst) == {}
    ensures Converged(c, src, dst, After(c, src, dst))
  {
    var below := Below(dst, c.prefix);
    assert Pick(src, {}) == map[];
    assert dst + map[] - {} == dst;
    assert below + map[] - {} == below;
    OverwritingReachesGoal(c, src, below);
  }

  /** A longest member of a finite set of paths. */
  lemma {:induction false} Longest(s: set<bytes>) returns (p: bytes)
    requires s != {}
    ensures p in s && forall q :: q in s ==> |q| <= |p|
  {
    p :| p in s;
    if s != {p} {
      var q := Longest(s - {p});
      if |q| > |p| { p := q; }
    }
  }

  /** No non-empty finite set of paths is closed under putting a prefix in front. */
  lemma LeavesTheSet(s: set<bytes>, prefix: bytes) returns (p: bytes)
    requires prefix != [] && s != {}
    ensures p in s && prefix + p !in s
  {
    p := Longest(s);
  }

  lemma AtPrefixed(c: Config, src: Files, dst: Files, p: bytes)
    ensures var q := c.prefix + p; var after := After(c, src, dst); var below := Below(after, c.prefix);
            && (p in below <==> (q in dst || q in Written(c, src, dst)) && q !in Removed(c, src, dst))
            && (p in below && q !in Written(c, src, dst) ==> q in dst && below[p] == dst[q])
  {
  }

  /** If the goal is reached below a proper directory, every stale file is stale one level deeper too. */
  lemma StaleDescends(c: Config, src: Files, dst: Files, p: bytes)
    requires Converged(c, src, dst, After(c, src, dst)) && p in Written(c, src, dst)
    ensures c.prefix + p in Written(c, src, dst)
  {
    AtPrefixed(c, src, dst, p);
  }

  lemma ExtraDescends(c: Config, src: Files, dst: Files, p: bytes)
    requires Converged(c, src, dst, After(c, src, dst)) && p in Removed(c, src, dst)
    ensures c.prefix + p in Removed(c, src, dst)
  {
    AtPrefixed(c, src, dst, p);
  }

  /**
   * Below any other directory, files are written and removed one level too high, so a
   * sync with anything to do never converges: the longest path concerned would have to
   * be concerned again behind the prefix.
   */
  lemma NeverConvergesElsewhere(c: Config, src: Files, dst: Files)
    requires c.prefix != []
    requires Converged(c, src, dst, After(c, src, dst))
    ensures Written(c, src, dst) == {} && Removed(c, src, dst) == {}
  {
    if Written(c, src, dst) != {} {
      var p := LeavesTheSet(Written(c, src, dst), c.prefix);
      StaleDescends(c, src, dst, p);
      assert false;
    }
    if Removed(c, src, dst) != {} {
      var p := LeavesTheSet(Removed(c, src, dst), c.prefix);
      ExtraDescends(c, src, dst, p);
      assert false;
    }
  }

  /**
   * The tree after a complete sync is converged if and only if the destination is the working
   * directory or there was nothing to do.
   */
  lemma AfterConvergesExactlyWhen(c: Config, src: Files, dst: Files)
    requires TellsApart(c.checksum, src, Below(dst, c.prefix))
    ensures Converged(c, src, dst, After(c, src, dst))
       <==> c.prefix == [] || (Written(c, src, dst) == {} && Removed(c, src, dst) == {})
  {
    if c.prefix == [] {
      BelowNothing(dst);
      ConvergesInPlace(c, src, dst);
    } else if Converged(c, src, dst, After(c, src, dst)) {
      NeverConvergesElsewhere(c, src, dst);
    } else if Written(c, src, dst) == {} && Removed(c, src, dst) == {} {
      ConvergesWhenNothingToDo(c, src, dst);
    }
  }

  /**
   * In every run, at DONE the destination has converged if and only if it is the working
   * directory or there was nothing to do.
   */
  lemma ConvergesExactlyWhen(c: Config, src: Files, dst: Files, steps: seq<Step>)
    requires Faithful(c.json) && TellsApart(c.checksum, src, Below(dst, c.prefix))
    requires Run(Fixed(0), c, src, dst, steps).net.receiver.done
    ensures Converged(c, src, dst, Run(Fixed(0), c, src, dst, steps).net.receiver.files)
       <==> c.prefix == [] || (Written(c, src, dst) == {} && Removed(c, src, dst) == {})
  {
    DoneMeansSynced(c, src, dst, steps);
    AfterConvergesExactlyWhen(c, src, dst);
  }

  /** On scans of a converged tree the comparison finds nothing to send and nothing to delete. */
  lemma ConvergedScansAgree(c: Config, src: Files, dst: Files, after: Files, ms: seq<Entry>, mr: seq<Entry>)
    requires Converged(c, src, dst, after)
    requires IsScan(ms, src, c.checksum) && IsScan(mr, Below(after, c.prefix), c.checksum)
    ensures ToSend(ms, mr) == [] && Deletions(c, ms, mr) == []
  {
    var below := Below(after, c.prefix);
    ComparisonOfScans(ms, src, mr, below, c.checksum);
    assert Stale(src, below, c.checksum) == {};
    NoElements(ToSend(ms, mr));
    if c.delete {
      assert Extra(src, below) == {};
      NoElements(ToDelete(ms, mr));
    }
  }

  /** A tree that has converged has no stale and no extra files. */
  lemma ConvergedNeedsNothing(c: Config, src: Files, dst: Files, after: Files)
    requires Converged(c, src, dst, after)
    ensures Written(c, src, after) == {} && Removed(c, src, after) == {} && After(c, src, after) == after
  {
    assert Pick(src, {}) == map[];
    assert after + map[] - {} == after;
  }

  /**
   * Run the sync again on the tree a run has left: if that tree had converged, then in every
   * such run nothing is requested, and at DONE no file was transferred and the tree is as it was.
   */
  lemma SecondRunRequestsNothing(c: Config, src: Files, dst: Files, first: seq<Step>, second: seq<Step>)
    requires Faithful(c.json)
    requires var n := Run(Fixed(0), c, src, dst, first).net;
             n.receiver.done && Converged(c, src, dst, n.receiver.files)
    ensures var tree := Run(Fixed(0), c, src, dst, first).net.receiver.files;
            var n := Run(Fixed(0), c, src, tree, second).net;
            && (n.peer.AwaitingFiles? && !n.stage.Broken? ==> n.peer.requested == [])
            && (n.receiver.done ==>
                  n.receiver.files == tree && n.receiver.filesTransferred == 0 && n.receiver.bytesTransferred == 0)
  {
    var tree := Run(Fixed(0), c, src, dst, first).net.receiver.files;
    RequestsNothing(c, src, dst, tree, second);
    DoneMeansSynced(c, src, tree, second);
    ConvergedNeedsNothing(c, src, dst, tree);
    var n := Run(Fixed(0), c, src, tree, second).net;
    if n.receiver.done {
      NoElements(n.peer.requested);
    }
  }

  lemma RequestsNothing(c: Config, src: Files, dst: Files, tree: Files, steps: seq<Step>)
    requires Faithful(c.json) && Converged(c, src, dst, tree)
    ensures var n := Run(Fixed(0), c, src, tree, steps).net;
            n.peer.AwaitingFiles? && !n.stage.Broken? ==> n.peer.requested == []
  {
    FixedLawful(0);
    RunKeeps(Fixed(0), c, src, tree, steps);
    RunKeepsTrees(Fixed(0), c, src, tree, steps);
    var n := Run(Fixed(0), c, src, tree, steps).net;
    if n.peer.AwaitingFiles? && !n.stage.Broken? {
      ConvergedScansAgree(c, src, dst, tree, n.stage.scan, n.stage.theirs);
    }
  }

  lemma NoElements<T>(s: seq<T>)
    ensures Elements(s) == {} ==> s == []
  {
    if s != [] {
      assert s[0] in Elements(s);
    }
  }
}
