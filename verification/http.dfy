/** `Application.HandleQuery`: the index is asked for the request path and its
    answer becomes either a 404 with a fixed JSON body or a 200 carrying the
    index's bytes. The index lookup `QueryBytes` is a parameter. */
module Http {
  import opened Wrappers
  import Text

  newtype byte = b: int | 0 <= b < 256

  const ContentTypeJson := "application/json"
  const StatusOK := 200
  const StatusNotFound := 404

  /** The text of the not-found body. */
  const NotFoundText := "{\"code\":404}"

  /** The bytes of an ASCII string. */
  function AsciiBytes(s: string): (b: seq<byte>)
    requires forall i :: 0 <= i < |s| ==> Text.IsAscii(s[i])
    ensures |b| == |s|
    ensures BytesText(b) == s
  {
    var b := seq(|s|, i requires 0 <= i < |s| && Text.IsAscii(s[i]) => s[i] as int as byte);
    assert BytesText(b) == s;
    b
  }

  /** The characters of a byte string, one per byte. */
  function BytesText(b: seq<byte>): string {
    seq(|b|, i requires 0 <= i < |b| => b[i] as int as char)
  }

  const BodyNotFound: seq<byte> := AsciiBytes(NotFoundText)

  /** The body, status and content type `HandleQuery` leaves on the request
      context. */
  datatype Response = Response(status: int, contentType: string, body: seq<byte>)

  /** The handler, given the request path and the index's `QueryBytes`
      (its bytes and whether the path was found). */
  function HandleQuery(path: string, queryBytes: string -> (seq<byte>, bool)): (r: Response)
    ensures r.contentType == "application/json"
    ensures r.status == 404 <==> !queryBytes(path).1
    ensures r.status == 200 <==> queryBytes(path).1
    ensures !queryBytes(path).1 ==> BytesText(r.body) == "{\"code\":404}"
    ensures queryBytes(path).1 ==> r.body == queryBytes(path).0
  {
    var (resp, ok) := queryBytes(path);
    if !ok then
      Response(StatusNotFound, ContentTypeJson, BodyNotFound)
    else
      Response(StatusOK, ContentTypeJson, resp)
  }

  /** What a client learns from a response: the index's bytes on 200, nothing
      otherwise. */
  function Served(r: Response): Option<seq<byte>> {
    if r.status == StatusOK then Some(r.body) else None
  }

  /** The response hands the client exactly what the index answered for the
      unmodified request path: its bytes when found, nothing when not. */
  lemma ServedIsIndexAnswer(path: string, queryBytes: string -> (seq<byte>, bool))
    ensures Served(HandleQuery(path, queryBytes)) ==
      if queryBytes(path).1 then Some(queryBytes(path).0) else None
  {
  }

  /** The response depends on nothing but the index's answer for the path
      itself: two indexes that answer the same for that path yield the same
      response, whatever they answer for other paths. */
  lemma ResponseDependsOnlyOnPath(path: string, q1: string -> (seq<byte>, bool), q2: string -> (seq<byte>, bool))
    requires q1(path) == q2(path)
    ensures HandleQuery(path, q1) == HandleQuery(path, q2)
  {
  }

  /** Every not-found response is the same one. */
  lemma NotFoundIsFixed(p1: string, q1: string -> (seq<byte>, bool), p2: string, q2: string -> (seq<byte>, bool))
    requires !q1(p1).1 && !q2(p2).1
    ensures HandleQuery(p1, q1) == HandleQuery(p2, q2)
    ensures |HandleQuery(p1, q1).body| == 12
  {
  }
}
