/**
 One codec that meets the law the framing relies on, so that the law is known to be satisfiable.
 It stands in for the program's own message codec and is not used by it.
 */
module PlainCodec {
  import opened Common
  import opened EnvelopeFraming

  /** A prefix-free encoding of numbers and of lists of numbers, for want of the real one. */
  function Unary(n: nat): seq<Byte> {
    if n == 0 then [0] else [1] + Unary(n - 1)
  }

  function Listed(s: seq<nat>): seq<Byte> {
    if s == [] then [0] else [1] + Unary(s[0]) + Listed(s[1..])
  }

  lemma {:induction false} UnaryIsPrefixFree(m: nat, n: nat, a: seq<Byte>, b: seq<Byte>)
    requires Unary(m) + a == Unary(n) + b
    ensures m == n && a == b
  {
    assert (Unary(m) + a)[0] == (Unary(n) + b)[0];
    assert (Unary(m) + a)[1..] == (if m == 0 then a else Unary(m - 1) + a);
    assert (Unary(n) + b)[1..] == (if n == 0 then b else Unary(n - 1) + b);
    if m > 0 && n > 0 {
      UnaryIsPrefixFree(m - 1, n - 1, a, b);
    }
  }

  lemma DropMarker(u: seq<Byte>, r: seq<Byte>, a: seq<Byte>)
    ensures ([1] + u + r + a)[0] == 1 && ([1] + u + r + a)[1..] == u + (r + a)
  {
  }

  lemma ListedStart(s: seq<nat>, a: seq<Byte>)
    ensures (Listed(s) + a)[0] == if s == [] then 0 else 1
    ensures (Listed(s) + a)[1..] == if s == [] then a else Unary(s[0]) + (Listed(s[1..]) + a)
  {
    if s != [] {
      DropMarker(Unary(s[0]), Listed(s[1..]), a);
    }
  }

  lemma {:induction false} ListedIsPrefixFree(s: seq<nat>, t: seq<nat>, a: seq<Byte>, b: seq<Byte>)
    requires Listed(s) + a == Listed(t) + b
    ensures s == t && a == b
    decreases |s|
  {
    ListedStart(s, a);
    ListedStart(t, b);
    if s != [] && t != [] {
      UnaryIsPrefixFree(s[0], t[0], Listed(s[1..]) + a, Listed(t[1..]) + b);
      ListedIsPrefixFree(s[1..], t[1..], a, b);
      assert s == [s[0]] + s[1..] && t == [t[0]] + t[1..];
    }
  }

  function KindNumbers(kind: EnvelopeKind): seq<nat> {
    match kind
    case TopLevel => [0]
    case CopyPrev => [1]
    case Checksums => [2]
    case Done => [3]
    case Spec(code) => if code >= 0 then [4, code] else [5, -code]
  }

  function TextNumbers(text: string): (r: seq<nat>)
    ensures |r| == |text| && forall i | 0 <= i < |r| :: r[i] == text[i] as int
  {
    seq(|text|, i requires 0 <= i < |text| => text[i] as int)
  }

  function DataNumbers(data: Option<seq<Byte>>): (r: seq<nat>)
    ensures data.None? ==> r == []
    ensures data.Some? ==> |r| == |data.value| + 1 && forall i | 0 <= i < |data.value| :: r[i + 1] == data.value[i]
  {
    match data
    case None => []
    case Some(bytes) => [0] + seq(|bytes|, i requires 0 <= i < |bytes| => bytes[i] as nat)
  }

  function PlainEncode(e: Envelope): seq<Byte> {
    Listed(KindNumbers(e.kind)) + (Listed(TextNumbers(e.name)) +
      (Listed(TextNumbers(e.checksum)) + Listed(DataNumbers(e.data))))
  }

  lemma TextNumbersInjective(a: string, b: string)
    requires TextNumbers(a) == TextNumbers(b)
    ensures a == b
  {
    forall i | 0 <= i < |a| ensures a[i] == b[i] {
      assert TextNumbers(a)[i] == TextNumbers(b)[i];
    }
  }

  lemma DataNumbersInjective(a: Option<seq<Byte>>, b: Option<seq<Byte>>)
    requires DataNumbers(a) == DataNumbers(b)
    ensures a == b
  {
    if a.Some? && b.Some? {
      forall i | 0 <= i < |a.value| ensures a.value[i] == b.value[i] {
        assert DataNumbers(a)[i + 1] == DataNumbers(b)[i + 1];
      }
      assert a.value == b.value;
    }
  }

  lemma PlainEncodeInjective(a: Envelope, b: Envelope)
    requires PlainEncode(a) == PlainEncode(b)
    ensures a == b
  {
    var a3, b3 := Listed(DataNumbers(a.data)), Listed(DataNumbers(b.data));
    var a2, b2 := Listed(TextNumbers(a.checksum)) + a3, Listed(TextNumbers(b.checksum)) + b3;
    var a1, b1 := Listed(TextNumbers(a.name)) + a2, Listed(TextNumbers(b.name)) + b2;
    ListedIsPrefixFree(KindNumbers(a.kind), KindNumbers(b.kind), a1, b1);
    ListedIsPrefixFree(TextNumbers(a.name), TextNumbers(b.name), a2, b2);
    ListedIsPrefixFree(TextNumbers(a.checksum), TextNumbers(b.checksum), a3, b3);
    assert a3 + [] == a3 && b3 + [] == b3;
    ListedIsPrefixFree(DataNumbers(a.data), DataNumbers(b.data), [], []);
    TextNumbersInjective(a.name, b.name);
    TextNumbersInjective(a.checksum, b.checksum);
    DataNumbersInjective(a.data, b.data);
    KindNumbersInjective(a.kind, b.kind);
  }

  lemma KindNumbersInjective(a: EnvelopeKind, b: EnvelopeKind)
    requires KindNumbers(a) == KindNumbers(b)
    ensures a == b
  {
    assert KindNumbers(a)[0] == KindNumbers(b)[0];
    if a.Spec? && b.Spec? {
      assert KindNumbers(a)[1] == KindNumbers(b)[1];
    }
  }

  ghost function PlainDecode(bytes: seq<Byte>): (r: Option<Envelope>)
    ensures r.Some? ==> PlainEncode(r.value) == bytes
    ensures r.None? ==> forall e :: PlainEncode(e) != bytes
  {
    if exists e :: PlainEncode(e) == bytes then
      var e :| PlainEncode(e) == bytes;
      Some(e)
    else None
  }

  lemma {:induction false} ListedLength(s: seq<nat>, most: nat)
    requires forall i | 0 <= i < |s| :: s[i] <= most
    ensures |Listed(s)| <= 1 + |s| * (most + 2)
    decreases |s|
  {
    if s != [] {
      UnaryLength(s[0]);
      ListedLength(s[1..], most);
      assert |s| * (most + 2) == |s[1..]| * (most + 2) + (most + 2);
    }
  }

  lemma {:induction false} UnaryLength(n: nat)
    ensures |Unary(n)| == n + 1
  {
    if n > 0 {
      UnaryLength(n - 1);
    }
  }

  const SHORT: Envelope := Envelope(Spec(1), "gate", "", Some([1]))

  lemma ShortEnvelopeFits()
    ensures |PlainEncode(SHORT)| < 1000
  {
    ListedLength(KindNumbers(SHORT.kind), 4);
    ListedLength(TextNumbers(SHORT.name), 116);
    ListedLength(TextNumbers(SHORT.checksum), 0);
    ListedLength(DataNumbers(SHORT.data), 1);
  }

  /** What the round trips ask of a codec can be had: this one is lawful, and short envelopes fit. */
  lemma LawfulCodecExists()
    ensures exists c: Codec :: c.Lawful() && c.AllFit([SHORT])
  {
    var c := Codec(PlainEncode, PlainDecode);
    forall e: Envelope ensures c.decode(c.encode(e)) == Some(e) {
      var d := PlainDecode(PlainEncode(e));
      assert d.Some?;
      PlainEncodeInjective(d.value, e);
    }
    ShortEnvelopeFits();
    assert c.Lawful() && c.Fits(SHORT);
  }
}
