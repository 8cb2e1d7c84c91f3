/** Uploading to Dropbox, in one request or through a session of chunks
    (dropbox/internal/dropbox/client.go). */
module Upload {
  import opened Numeric
  import opened ContentHash

  // uploadSimpleLimit and uploadChunkSize
  const SIMPLE_LIMIT: int := 150 * 1024 * 1024
  const CHUNK: int := 8 * 1024 * 1024

  datatype Call = Simple(data: Bytes) | Start(data: Bytes) | Append(offset: int, data: Bytes) | Finish(offset: int, data: Bytes)

  // The far side: the bytes of an open session, the content committed to the path, and whether a call
  // came with an offset that is not the session's length.
  datatype Remote = Remote(session: Option<Bytes>, committed: Option<Bytes>, refused: bool)

  const IDLE := Remote(None, None, false)

  function Served(r: Remote, call: Call): Remote {
    match call
    case Simple(data) => r.(committed := Some(data))
    case Start(data) => r.(session := Some(data))
    case Append(offset, data) =>
      if r.session.None? || offset != |r.session.value| then r.(refused := true) else r.(session := Some(r.session.value + data))
    case Finish(offset, data) =>
      if r.session.None? || offset != |r.session.value| then r.(refused := true)
      else r.(session := None, committed := Some(r.session.value + data))
  }

  function ServedAll(calls: seq<Call>): Remote {
    if calls == [] then IDLE else Served(ServedAll(calls[..|calls| - 1]), calls[|calls| - 1])
  }

  lemma ServedSnoc(calls: seq<Call>, call: Call)
    ensures ServedAll(calls + [call]) == Served(ServedAll(calls), call)
  {
    assert (calls + [call])[..|calls|] == calls;
  }

  // What a successful upload commits: the first size bytes of the source. A source that is too short
  // goes through the one-request form as it is, and fails in a session.
  function Committed(src: Bytes, size: int): Option<Bytes> {
    if size < 0 then None
    else if size <= |src| then Some(src[..size])
    else if size <= SIMPLE_LIMIT then Some(src)
    else None
  }

  // Upload; works says which calls succeed, and a call that does not has no effect. The calls returned
  // are those that took effect.
  method Send(src: Bytes, size: int, works: nat -> bool) returns (ok: bool, calls: seq<Call>)
    ensures !ServedAll(calls).refused
    ensures ok ==> Committed(src, size).Some? && ServedAll(calls).committed == Committed(src, size) && ServedAll(calls).session == None
    ensures !ok ==> ServedAll(calls).committed == None
    ensures size >= 0 && Committed(src, size).Some? && (forall i :: works(i)) ==> ok
    ensures forall call :: call in calls ==> call.Simple? || |call.data| <= CHUNK
  {
    hide Served;
    calls := [];
    if size < 0 {
      return false, calls;
    }
    if size <= SIMPLE_LIMIT {
      if !works(0) {
        return false, calls;
      }
      var data := if size <= |src| then src[..size] else src;
      SimpleCommits(data);
      return true, [Simple(data)];
    }
    var first := CHUNK;
    if first > size {
      first := size;
    }
    if |src| < first {
      return false, calls;
    }
    if !works(0) {
      return false, calls;
    }
    calls := [Start(src[..first])];
    StartOpens(src[..first]);
    var offset := first;
    while offset < size
      invariant 0 < offset <= size && calls != []
      invariant offset < size ==> offset <= |src| && ServedAll(calls) == Remote(Some(src[..offset]), None, false)
      invariant offset == size ==> size <= |src| && ServedAll(calls) == Remote(None, Some(src[..size]), false)
      invariant forall call :: call in calls ==> |call.data| <= CHUNK
    {
      var n := CHUNK;
      if n > size - offset {
        n := size - offset;
      }
      if |src| < offset + n {
        return false, calls;
      }
      if !works(|calls|) {
        return false, calls;
      }
      var data := src[offset..offset + n];
      var call := if offset + n == size then Finish(offset, data) else Append(offset, data);
      ServedSnoc(calls, call);
      SessionGrows(src, offset, n, offset + n == size);
      calls := calls + [call];
      offset := offset + n;
    }
    return true, calls;
  }

  lemma SimpleCommits(data: Bytes)
    ensures ServedAll([Simple(data)]) == Remote(None, Some(data), false)
  {
    assert [Simple(data)] == [] + [Simple(data)];
    ServedSnoc([], Simple(data));
  }

  lemma StartOpens(data: Bytes)
    ensures ServedAll([Start(data)]) == Remote(Some(data), None, false)
  {
    assert [Start(data)] == [] + [Start(data)];
    ServedSnoc([], Start(data));
  }

  // A chunk at its own offset continues the session.
  lemma SessionGrows(src: Bytes, offset: int, n: int, last: bool)
    requires 0 <= offset && 0 <= n && offset + n <= |src|
    ensures var data := src[offset..offset + n];
            Served(Remote(Some(src[..offset]), None, false), if last then Finish(offset, data) else Append(offset, data)) ==
            if last then Remote(None, Some(src[..offset + n]), false) else Remote(Some(src[..offset + n]), None, false)
  {
    assert src[..offset] + src[offset..offset + n] == src[..offset + n];
  }
}
