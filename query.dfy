/** The shape of `new URLSearchParams(params).toString()`: the
    application/x-www-form-urlencoded serializer of the WHATWG URL Standard
    (section 5.2, "application/x-www-form-urlencoded serializing") writes
    every name/value pair as `name=value`, each side percent-encoded, and
    joins the pairs with `&`. The byte-level encoder itself is a parameter. */
module Query {

  /** `parts` joined with `sep` between neighbours. */
  function Join(parts: seq<string>, sep: char): (r: string)
    ensures parts == [] ==> r == ""
    ensures parts != [] ==> parts[0] <= r
  {
    if |parts| == 0 then ""
    else if |parts| == 1 then parts[0]
    else parts[0] + [sep] + Join(parts[1..], sep)
  }

  /** Index of the first `sep` in `s`. */
  function IndexOf(s: string, sep: char): (k: nat)
    requires sep in s
    ensures k < |s| && s[k] == sep && sep !in s[..k]
  {
    if s[0] == sep then 0 else 1 + IndexOf(s[1..], sep)
  }

  /** `s` cut at every `sep`: the inverse of `Join` on parts free of `sep`. */
  function Split(s: string, sep: char): (r: seq<string>)
    ensures |r| >= 1
    ensures forall i :: 0 <= i < |r| ==> sep !in r[i]
    decreases |s|
  {
    if sep !in s then [s]
    else
      var k := IndexOf(s, sep);
      [s[..k]] + Split(s[k + 1..], sep)
  }

  /** One pair as the serializer writes it. */
  function EncodePair(encode: string -> string, p: (string, string)): (piece: string)
    ensures |piece| == |encode(p.0)| + 1 + |encode(p.1)|
    ensures piece[|encode(p.0)|] == '='
  {
    encode(p.0) + "=" + encode(p.1)
  }

  function EncodePairs(encode: string -> string, ps: seq<(string, string)>): (parts: seq<string>)
    ensures |parts| == |ps|
  {
    seq(|ps|, i requires 0 <= i < |ps| => EncodePair(encode, ps[i]))
  }

  /** The serialized query string for `ps`, in the order given. */
  function Serialize(encode: string -> string, ps: seq<(string, string)>): (r: string)
    ensures r == "" <==> ps == []
    ensures ps != [] ==> EncodePair(encode, ps[0]) <= r
  {
    Join(EncodePairs(encode, ps), '&')
  }

  /** The encoder percent-escapes both delimiters, as the urlencoded
      percent-encode set requires for `&` and `=`. */
  ghost predicate EscapesDelimiters(encode: string -> string)
  {
    forall s :: '&' !in encode(s) && '=' !in encode(s)
  }

  /** A `name=value` piece cut at its first `=`. */
  function SplitPair(piece: string): (kv: (string, string))
    ensures '=' !in kv.0
    ensures |kv.0| + |kv.1| + (if '=' in piece then 1 else 0) == |piece|
  {
    if '=' in piece then
      var k := IndexOf(piece, '=');
      (piece[..k], piece[k + 1..])
    else (piece, "")
  }

  /** Reads a serialized query back into its (still encoded) pairs. */
  function Parse(q: string): (r: seq<(string, string)>)
    ensures q == "" ==> r == []
    ensures q != "" ==> |r| == |Split(q, '&')|
    ensures forall i :: 0 <= i < |r| ==> r[i] == SplitPair(Split(q, '&')[i])
  {
    if q == "" then []
    else
      var pieces := Split(q, '&');
      seq(|pieces|, i requires 0 <= i < |pieces| => SplitPair(pieces[i]))
  }

  /** Occurrences of `c` in `s`. */
  function Count(s: string, c: char): (n: nat)
    ensures n <= |s|
    ensures c !in s ==> n == 0
  {
    if s == [] then 0 else (if s[0] == c then 1 else 0) + Count(s[1..], c)
  }

  /** The first `sep` of `p + [sep] + rest` is the one after `p`. */
  lemma FirstSeparator(p: string, sep: char, rest: string)
    requires sep !in p
    ensures IndexOf(p + [sep] + rest, sep) == |p|
    ensures (p + [sep] + rest)[..|p|] == p && (p + [sep] + rest)[|p| + 1..] == rest
  {
    var s := p + [sep] + rest;
    assert s[..|p|] == p;
    assert s[|p|] == sep;
  }

  lemma {:induction false} SplitJoin(parts: seq<string>, sep: char)
    requires |parts| >= 1
    requires forall i :: 0 <= i < |parts| ==> sep !in parts[i]
    ensures Split(Join(parts, sep), sep) == parts
  {
    if |parts| > 1 {
      var p, tail := parts[0], parts[1..];
      var rest := Join(tail, sep);
      var s := Join(parts, sep);
      assert s == p + [sep] + rest;
      FirstSeparator(p, sep, rest);
      assert s[|p|] == sep;
      assert Split(s, sep) == [p] + Split(rest, sep);
      forall i | 0 <= i < |tail|
        ensures sep !in tail[i]
      {
        assert tail[i] == parts[i + 1];
      }
      SplitJoin(tail, sep);
      assert [p] + tail == parts;
    }
  }

  lemma SplitPairEncoded(encode: string -> string, p: (string, string))
    requires EscapesDelimiters(encode)
    ensures SplitPair(EncodePair(encode, p)) == (encode(p.0), encode(p.1))
  {
    var a, b := encode(p.0), encode(p.1);
    var piece := a + "=" + b;
    assert piece[|a|] == '=';
    var k := IndexOf(piece, '=');
    assert piece[..k] == a;
    assert piece[k + 1..] == b;
  }

  /** Round trip: when the encoder escapes the delimiters, the serialized
      query names every pair, in order, with its encoded name and value;
      an empty parameter object serializes to `""`, which reads back as no
      pairs. */
  lemma ParseSerialize(encode: string -> string, ps: seq<(string, string)>)
    requires EscapesDelimiters(encode)
    ensures |Parse(Serialize(encode, ps))| == |ps|
    ensures forall i :: 0 <= i < |ps| ==>
              Parse(Serialize(encode, ps))[i] == (encode(ps[i].0), encode(ps[i].1))
  {
    if ps == [] {
      return;
    }
    var parts := EncodePairs(encode, ps);
    forall i | 0 <= i < |parts| ensures '&' !in parts[i] {
      assert parts[i] == encode(ps[i].0) + "=" + encode(ps[i].1);
    }
    SplitJoin(parts, '&');
    forall i | 0 <= i < |ps|
      ensures Parse(Serialize(encode, ps))[i] == (encode(ps[i].0), encode(ps[i].1))
    {
      SplitPairEncoded(encode, ps[i]);
    }
  }

  lemma {:induction false} CountAppend(a: string, b: string, c: char)
    ensures Count(a + b, c) == Count(a, c) + Count(b, c)
  {
    if a == [] {
      assert a + b == b;
    } else {
      assert (a + b)[1..] == a[1..] + b;
      CountAppend(a[1..], b, c);
    }
  }

  /** Joining `sep`-free parts puts exactly one `sep` between neighbours. */
  lemma {:induction false} JoinCount(parts: seq<string>, sep: char)
    requires forall i :: 0 <= i < |parts| ==> sep !in parts[i]
    ensures Count(Join(parts, sep), sep) == if parts == [] then 0 else |parts| - 1
  {
    if |parts| > 1 {
      var rest := Join(parts[1..], sep);
      assert Join(parts, sep) == parts[0] + [sep] + rest;
      CountAppend(parts[0] + [sep], rest, sep);
      CountAppend(parts[0], [sep], sep);
      assert Count([sep], sep) == 1;
      assert forall i :: 0 <= i < |parts[1..]| ==> sep !in parts[1..][i];
      JoinCount(parts[1..], sep);
    }
  }

  /** `&` appears exactly between neighbouring pairs: one fewer time than
      there are pairs, and not at all for an empty parameter object. */
  lemma SerializeSeparators(encode: string -> string, ps: seq<(string, string)>)
    requires EscapesDelimiters(encode)
    ensures Count(Serialize(encode, ps), '&') == if ps == [] then 0 else |ps| - 1
  {
    var parts := EncodePairs(encode, ps);
    forall i | 0 <= i < |parts| ensures '&' !in parts[i] {
      assert parts[i] == encode(ps[i].0) + "=" + encode(ps[i].1);
    }
    JoinCount(parts, '&');
  }
}
