/** Splitting a body into streamed replies below Envoy's per-chunk limit. */
module Chunking {
  import opened Common

  const BODY_BYTE_LIMIT := 62000

  /** A `StreamedBodyResponse`. */
  datatype Chunk = Chunk(body: Bytes, endOfStream: bool)

  function Split(body: Bytes, setEos: bool): seq<Chunk>
    decreases |body|
  {
    if |body| <= BODY_BYTE_LIMIT then [Chunk(body, setEos)]
    else [Chunk(body[..BODY_BYTE_LIMIT], false)] + Split(body[BODY_BYTE_LIMIT..], setEos)
  }

  function Joined(chunks: seq<Chunk>): Bytes {
    if chunks == [] then [] else chunks[0].body + Joined(chunks[1..])
  }

  /** No byte is lost, added or reordered, every chunk fits, only the last one ends the stream,
      and no chunk is empty unless the body is. */
  lemma {:induction false} SplitIsExact(body: Bytes, setEos: bool)
    ensures var r := Split(body, setEos);
            && Joined(r) == body
            && 1 <= |r|
            && (forall i :: 0 <= i < |r| ==> |r[i].body| <= BODY_BYTE_LIMIT)
            && (forall i :: 0 <= i < |r| ==> (r[i].endOfStream <==> setEos && i == |r| - 1))
            && (body != [] ==> forall i :: 0 <= i < |r| ==> r[i].body != [])
    decreases |body|
  {
    var r := Split(body, setEos);
    if |body| <= BODY_BYTE_LIMIT {
      assert r[1..] == [];
    } else {
      SplitIsExact(body[BODY_BYTE_LIMIT..], setEos);
      assert r[1..] == Split(body[BODY_BYTE_LIMIT..], setEos);
      assert body == body[..BODY_BYTE_LIMIT] + body[BODY_BYTE_LIMIT..];
    }
  }

  /** As few chunks as the limit allows. */
  lemma {:induction false} SplitIsMinimal(body: Bytes, setEos: bool)
    ensures |Split(body, setEos)| == if body == [] then 1 else (|body| + BODY_BYTE_LIMIT - 1) / BODY_BYTE_LIMIT
    decreases |body|
  {
    if |body| > BODY_BYTE_LIMIT {
      SplitIsMinimal(body[BODY_BYTE_LIMIT..], setEos);
    }
  }

  /** What one turn of the loop peels off: the rest of the body is split as if it stood alone. */
  ghost function SplitOrDone(rest: Bytes, setEos: bool): seq<Chunk> {
    if rest == [] then [] else Split(rest, setEos)
  }

  lemma SplitPeel(rest: Bytes, setEos: bool, len: nat)
    requires rest != []
    requires len == if |rest| < BODY_BYTE_LIMIT then |rest| else BODY_BYTE_LIMIT
    ensures SplitOrDone(rest, setEos) ==
            [Chunk(rest[..len], setEos && len == |rest|)] + SplitOrDone(rest[len..], setEos)
  {
    if len == |rest| {
      assert rest[..len] == rest;
    }
  }

  method BuildChunkedBodyResponses(bodyBytes: Bytes, setEos: bool) returns (responses: seq<Chunk>)
    ensures responses == Split(bodyBytes, setEos)
  {
    responses := [];
    var startingIndex, bodyLen := 0, |bodyBytes|;
    if bodyLen == 0 {
      return [Chunk(bodyBytes, setEos)];
    }
    assert bodyBytes[0..] == bodyBytes;
    ghost var whole := Split(bodyBytes, setEos);
    while startingIndex < bodyLen
      invariant 0 <= startingIndex <= bodyLen
      invariant responses + SplitOrDone(bodyBytes[startingIndex..], setEos) == whole
    {
      var len := if bodyLen - startingIndex < BODY_BYTE_LIMIT then bodyLen - startingIndex else BODY_BYTE_LIMIT;
      var chunk := bodyBytes[startingIndex..len + startingIndex];
      var eos := setEos && len + startingIndex >= bodyLen;
      ghost var rest := bodyBytes[startingIndex..];
      SplitPeel(rest, setEos, len);
      assert chunk == rest[..len];
      assert bodyBytes[startingIndex + len..] == rest[len..];
      responses := responses + [Chunk(chunk, eos)];
      startingIndex := startingIndex + len;
    }
  }
}
