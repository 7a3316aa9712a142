/**
 * The two ends of a transfer put together: the receive loop fed the DATA
 * messages, COMPLETE and the digest ends with the file written and the
 * transfer verified; and what `_send_file_data` writes, read by a receiver
 * that has the same first `pos` bytes, leaves it with the sender's file.
 */
module Delivery {
  import opened Wrappers
  import opened Bytes
  import Json
  import opened Frame
  import opened Engine
  import opened Properties

  /** The closing messages: COMPLETE followed by the digest header. */
  function Closing(h: string): seq<byte> {
    CommandFrame(Complete) + HeaderFrame(HashDoc(h))
  }

  /** A hexadecimal MD5 digest (32 characters) fits in one header frame. */
  lemma HashDocFits(h: string)
    requires |h| <= 300
    ensures |Json.Encode(HashDoc(h))| <= HEADER_SIZE
  {
    var n := |h|;
    if n >= 128 {
      assert |Json.EncodeNat(n / 128)| == 1;
    }
    assert |Json.EncodeString(h)| <= 2 + 3 * n;
    assert |Json.EncodeString("file_hash")| == 1 + 27;
    var doc := HashDoc(h);
    assert doc[1..] == [];
    assert |Json.EncodeMembers(doc)| == 28 + 1 + |Json.EncodeString(h)|;
  }

  /**
   * The receive loop on COMPLETE and the digest as the last bytes of the stream:
   * the transfer is complete exactly when the digest is that of the written file,
   * in which case the `.resume` record is removed, and otherwise the error is the
   * mismatch message; then the stream ends and the connection is marked closed.
   */
  lemma CompleteEnds(env: Env, q: State, w: string, h: string)
    requires q.connected && q.session.path == Some(w) && !q.session.completed && w in q.files
    requires |Json.Encode(HashDoc(h))| <= HEADER_SIZE
    requires q.socket.incoming == Closing(h)
    ensures var r := ReceiveAll(env, q);
      var ok := h == env.digest(q.files[w]);
      (r.session.completed <==> ok) &&
      (ok ==> r.files == q.files - {ResumePath(w)}) &&
      (!ok ==> r.files == q.files && r.session.error == Json.Str(MISMATCH_MESSAGE)) &&
      !r.session.active && r.session.file == None && r.session.transferred == q.session.transferred &&
      r.socket == q.socket.(incoming := []) && !r.connected &&
      r.events == q.events + Heard(env, [OnComplete(ok)])
  {
    var r := CompleteDispatch(env, q, w, h);
    assert ReceiveAll(env, q) == ReceiveAll(env, r);
    EndOfStream(env, r);
  }

  /** The COMPLETE message handled by `_handle_complete`, leaving the connection up and the stream empty. */
  lemma CompleteDispatch(env: Env, q: State, w: string, h: string) returns (r: State)
    requires q.connected && q.session.path == Some(w) && !q.session.completed && w in q.files
    requires |Json.Encode(HashDoc(h))| <= HEADER_SIZE
    requires q.socket.incoming == Closing(h)
    ensures ReceiveOne(env, q) == r
    ensures var ok := h == env.digest(q.files[w]);
      (r.session.completed <==> ok) &&
      (ok ==> r.files == q.files - {ResumePath(w)}) &&
      (!ok ==> r.files == q.files && r.session.error == Json.Str(MISMATCH_MESSAGE)) &&
      !r.session.active && r.session.file == None && r.session.transferred == q.session.transferred &&
      r.socket == q.socket.(incoming := []) && r.connected &&
      r.events == q.events + Heard(env, [OnComplete(ok)])
  {
    var header := HeaderFrame(HashDoc(h));
    Dispatch(env, q, Complete, header);
    var q1 := q.(socket := q.socket.(incoming := header));
    assert header == header + [];
    CompleteVerifies(env, q1, w, h, []);
    r := CompleteStep(env, q1);
    assert r.connected == q1.connected == q.connected;
  }

  /** Removing the `.resume` record of `w` keeps every other file. */
  lemma DropRecordKeeps(a: map<string, seq<byte>>, w: string)
    ensures OthersKept(a, a - {ResumePath(w)}, w)
  {
  }

  /** The receive loop works through the DATA messages and stops before COMPLETE. */
  lemma ReceiveData(env: Env, q: State, w: string, content: seq<byte>, pos: nat, h: string)
    returns (q0: State)
    requires Receiving(q, w, pos) && pos <= |content| && w in q.files
    requires q.socket.incoming == Stream(content, pos) + Closing(h)
    ensures ReceiveAll(env, q) == ReceiveAll(env, q0)
    ensures Receiving(q0, w, |content|) && q0.session == q.session.(transferred := |content|)
    ensures q0.socket == q.socket.(incoming := Closing(h))
    ensures w in q0.files && q0.files[w] == q.files[w] + content[pos..] && OthersKept(q.files, q0.files, w)
    ensures q0.events == q.events + Heard(env, Reports(content, pos))
  {
    var tail := Closing(h);
    q0 := Received(env, q, content, pos, tail);
    DrainData(env, q, w, content, pos, tail);
    ReceivedSession(env, q, w, content, pos, tail);
    ReceivedContent(env, q, w, content, pos, tail);
    ReceivedOthers(env, q, w, content, pos, tail);
    ReceivedEvents(env, q, w, content, pos, tail);
    if pos == |content| {
      assert Stream(content, pos) == [];
      assert q.socket.incoming == tail;
    }
  }

  /**
   * `_receive_loop` on a receiver writing `w` at offset `pos`, fed the DATA messages
   * of `content` from `pos`, COMPLETE and the digest `h`: the file has gained the rest
   * of the content, the transfer is complete exactly when `h` is the digest of the
   * file as written, no other file changes but the `.resume` record (removed on
   * success), the same progress reports are heard as on the sending side, and the
   * receiver writes nothing back.
   */
  lemma ReceiveDelivers(env: Env, q: State, w: string, content: seq<byte>, pos: nat, h: string)
    requires Receiving(q, w, pos) && !q.session.completed && pos <= |content| && w in q.files
    requires |Json.Encode(HashDoc(h))| <= HEADER_SIZE
    requires q.socket.incoming == Stream(content, pos) + Closing(h)
    ensures var r := ReceiveAll(env, q);
      var file := q.files[w] + content[pos..];
      var ok := h == env.digest(file);
      w in r.files && r.files[w] == file && OthersKept(q.files, r.files, w) &&
      (r.session.completed <==> ok) && (ok ==> ResumePath(w) !in r.files) &&
      (!ok ==> r.session.error == Json.Str(MISMATCH_MESSAGE)) &&
      !r.session.active && r.session.file == None && r.session.transferred == |content| && !r.connected &&
      r.socket.outgoing == q.socket.outgoing && r.socket.incoming == [] &&
      r.events == q.events + Heard(env, Reports(content, pos)) + Heard(env, [OnComplete(ok)])
  {
    var q0 := ReceiveData(env, q, w, content, pos, h);
    CompleteEnds(env, q0, w, h);
    assert |ResumePath(w)| > |w|;
    DropRecordKeeps(q0.files, w);
    var r := ReceiveAll(env, q0);
    OthersKeptChain(q.files, q0.files, r.files, w);
  }

  /**
   * The whole protocol from offset `pos`: a sender streaming `p` and a receiver that
   * holds the first `pos` bytes of it. Everything `_send_file_data` writes, read by
   * `_receive_loop`, leaves the receiver with exactly the sender's file, both ends
   * mark the transfer complete at the same size, and the `.resume` record is gone.
   * The digest is MD5 in hexadecimal, 32 characters, computed alike on both ends.
   */
  lemma TransferDelivers(senv: Env, s: State, p: string, pos: nat, sent: nat, renv: Env, q: State, w: string)
    requires Streaming(s, p, pos)
    requires Receiving(q, w, pos) && !q.session.completed && w in q.files && q.files[w] == s.files[p][..pos]
    requires renv.digest == senv.digest && |senv.digest(s.files[p])| == 32
    ensures var (raised, r) := SendLoop(senv, s, NoInterrupt, sent);
      var o := s.socket.outgoing;
      |o| <= |r.socket.outgoing| && r.socket.outgoing[..|o|] == o &&
      var qr := ReceiveAll(renv, q.(socket := q.socket.(incoming := r.socket.outgoing[|o|..])));
      !raised && r.session.completed && qr.session.completed &&
      w in qr.files && qr.files[w] == s.files[p] && ResumePath(w) !in qr.files &&
      qr.session.transferred == r.session.transferred == |s.files[p]|
  {
    var content := s.files[p];
    var h := senv.digest(content);
    var wire := SenderWrites(senv, s, p, pos, sent);
    var q1 := q.(socket := q.socket.(incoming := wire));
    HashDocFits(h);
    ReceiveDelivers(renv, q1, w, content, pos, h);
    PrefixJoins(content, pos);
  }

  /** `_send_file_data` from `pos`: what it appends to the stream is the DATA messages and the closing messages. */
  lemma SenderWrites(senv: Env, s: State, p: string, pos: nat, sent: nat) returns (wire: seq<byte>)
    requires Streaming(s, p, pos)
    ensures var (raised, r) := SendLoop(senv, s, NoInterrupt, sent);
      var o := s.socket.outgoing;
      !raised && r.session.completed && r.session.transferred == |s.files[p]| &&
      |o| <= |r.socket.outgoing| && r.socket.outgoing[..|o|] == o && r.socket.outgoing[|o|..] == wire
    ensures wire == Stream(s.files[p], pos) + Closing(senv.digest(s.files[p]))
  {
    var content := s.files[p];
    var h := senv.digest(content);
    SendLoopDelivers(senv, s, p, pos, sent);
    WireSlice(s.socket.outgoing, Stream(content, pos), CommandFrame(Complete), HeaderFrame(HashDoc(h)));
    wire := Stream(content, pos) + Closing(h);
  }

  lemma PrefixJoins(content: seq<byte>, pos: nat)
    requires pos <= |content|
    ensures content[..pos] + content[pos..] == content
  {
  }
}
