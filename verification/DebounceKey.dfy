// internal/api/debounce.go:246-329: which requests may share an answer, the length-delimited text their key hashes,
// and the buffer the shared answer is captured in.
module DebounceKey {
  import opened Options

  /** What the key looks at. `conditional` is set by any of the conditional or Range headers; `token` is "" without
      one. */
  datatype Request = Request(method_: string, uri: string, contentLength: int, conditional: bool, token: string,
                             accept: string, apiVersion: string)

  predicate Eligible(r: Request) {
    r.method_ == "GET" && r.contentLength <= 0 && !r.conditional && r.token != ""
  }

  // ---- The encoding ----

  function Digit(d: nat): char
    requires d < 10
  {
    '0' + d as char
  }

  /** strconv.Itoa of a length. */
  function Itoa(n: nat): (s: string)
    ensures s != []
  {
    if n < 10 then [Digit(n)] else Itoa(n / 10) + [Digit(n % 10)]
  }

  function Framed(part: string): string { Itoa(|part|) + ([':'] + part) }

  function Encode(parts: seq<string>): string {
    if parts == [] then "" else Framed(parts[0]) + Encode(parts[1..])
  }

  /** A reader of the encoding: the number up to the colon, and what follows it. */
  function ReadNumber(s: string, acc: nat): (r: Option<(nat, string)>)
    ensures r.Some? ==> |r.value.1| < |s|
  {
    if s == [] then None
    else if s[0] == ':' then Some((acc, s[1..]))
    else if '0' <= s[0] <= '9' then ReadNumber(s[1..], acc * 10 + (s[0] - '0') as nat)
    else None
  }

  function Decode(s: string): Option<seq<string>>
    decreases |s|
  {
    if s == [] then Some([])
    else
      var r := ReadNumber(s, 0);
      if r.None? || r.value.0 > |r.value.1| then None
      else
        var (n, rest) := r.value;
        var more := Decode(rest[n..]);
        if more.None? then None else Some([rest[..n]] + more.value)
  }

  lemma {:induction false} ReadItoa(n: nat, t: string)
    ensures ReadNumber(Itoa(n) + t, 0) == ReadNumber(t, n)
  {
    var d := [Digit(n % 10)];
    if n >= 10 {
      assert Itoa(n) + t == Itoa(n / 10) + (d + t);
      ReadItoa(n / 10, d + t);
    }
    assert (d + t)[1..] == t;
  }

  /** Decoding recovers the parts, whatever bytes they hold. */
  lemma {:induction false} DecodeEncode(parts: seq<string>)
    ensures Decode(Encode(parts)) == Some(parts)
  {
    if parts != [] {
      var p, tail := parts[0], Encode(parts[1..]);
      var body := p + tail;
      assert Encode(parts) == Itoa(|p|) + ([':'] + body);
      ReadItoa(|p|, [':'] + body);
      assert ([':'] + body)[1..] == body;
      assert body[..|p|] == p && body[|p|..] == tail;
      DecodeEncode(parts[1..]);
      assert parts == [p] + parts[1..];
    }
  }

  /** No concatenation of fields imitates another. */
  lemma EncodeInjective(a: seq<string>, b: seq<string>)
    requires Encode(a) == Encode(b)
    ensures a == b
  {
    DecodeEncode(a);
    DecodeEncode(b);
  }

  /** The text debounceKey hashes, None when the request must not be debounced. */
  method KeyText(r: Request, fingerprint: string -> string) returns (text: Option<string>)
    ensures text.Some? <==> r.method_ == "GET" && r.contentLength <= 0 && !r.conditional && |r.token| > 0
    ensures text.Some? <==> Eligible(r)
    ensures text.Some? ==> text.value == Encode([r.method_, r.uri, fingerprint(r.token), r.accept, r.apiVersion])
  {
    if r.method_ != "GET" || r.contentLength > 0 || r.conditional || r.token == "" {
      return None;
    }
    var parts := [r.method_, r.uri, fingerprint(r.token), r.accept, r.apiVersion];
    var sum := "";
    assert "" + Encode(parts[0..]) == Encode(parts);
    for i := 0 to |parts|
      invariant sum + Encode(parts[i..]) == Encode(parts)
    {
      assert parts[i..][1..] == parts[i + 1..];
      assert ((sum + Itoa(|parts[i]|)) + [':']) + parts[i] + Encode(parts[i + 1..])
          == sum + (Framed(parts[i]) + Encode(parts[i + 1..]));
      sum := sum + Itoa(|parts[i]|);
      sum := sum + [':'];
      sum := sum + parts[i];
    }
    assert parts[|parts|..] == [] && sum + "" == sum;
    return Some(sum);
  }

  /** Two requests hash the same text only if method, URI, credential, Accept and API version all agree. */
  lemma SameTextSameRequest(a: Request, b: Request, fingerprint: string -> string)
    requires forall x, y :: fingerprint(x) == fingerprint(y) ==> x == y
    requires Encode([a.method_, a.uri, fingerprint(a.token), a.accept, a.apiVersion])
          == Encode([b.method_, b.uri, fingerprint(b.token), b.accept, b.apiVersion])
    ensures a.method_ == b.method_ && a.uri == b.uri && a.token == b.token
    ensures a.accept == b.accept && a.apiVersion == b.apiVersion
  {
    var p := [a.method_, a.uri, fingerprint(a.token), a.accept, a.apiVersion];
    var q := [b.method_, b.uri, fingerprint(b.token), b.accept, b.apiVersion];
    EncodeInjective(p, q);
    assert p[0] == q[0] && p[1] == q[1] && p[2] == q[2] && p[3] == q[3] && p[4] == q[4];
  }

  // ---- The capture buffer ----

  function Concat(chunks: seq<string>): string {
    if chunks == [] then "" else Concat(chunks[..|chunks| - 1]) + chunks[|chunks| - 1]
  }

  class BufferingWriter {
    const limit: nat
    var status: int
    var body: string
    var overflow: bool
    var wroteHeader: bool
    ghost var written: seq<string>

    /** The body is everything written, until it would not fit; then nothing is held any more. */
    ghost predicate Valid()
      reads this
    {
      && (overflow <==> |Concat(written)| > limit)
      && body == (if overflow then "" else Concat(written))
    }

    constructor (limit: nat)
      ensures Valid() && written == [] && status == 200 && !wroteHeader && this.limit == limit
    {
      this.limit := limit;
      status, body, overflow, wroteHeader, written := 200, "", false, false, [];
    }

    method WriteHeader(code: int)
      requires Valid()
      modifies `status, `wroteHeader
      ensures Valid() && wroteHeader
      ensures status == if old(wroteHeader) then old(status) else code
    {
      if !wroteHeader {
        status := code;
        wroteHeader := true;
      }
    }

    method Write(p: string) returns (n: nat)
      requires Valid()
      modifies `body, `overflow, `wroteHeader, `written
      ensures Valid() && wroteHeader && written == old(written) + [p] && n == |p|
    {
      wroteHeader := true;
      written := written + [p];
      assert written[..|written| - 1] == old(written);
      n := |p|;
      if overflow {
        return;
      }
      if |body| + |p| > limit {
        overflow := true;
        body := "";
        return;
      }
      body := body + p;
    }
  }
}
