/** Node addresses: their text form, how it is parsed, and the order that breaks dial ties. */
module Address {
  import opened Bytes

  /** The text of a veilid key: 43 URL-safe base64 characters. */
  predicate KeyChar(c: char) { 'A' <= c <= 'Z' || 'a' <= c <= 'z' || '0' <= c <= '9' || c == '-' || c == '_' }

  predicate IsKeyText(s: string) { |s| == 43 && forall i :: 0 <= i < |s| ==> KeyChar(s[i]) }

  type KeyText = s: string | IsKeyText(s) witness seq(43, i => 'A')

  /** `Safe` also carries the DHT owner secret and the time of the last DHT write, both local. */
  datatype Address =
    | Safe(key: KeyText, owner: Option<nat>, published: Option<nat>)
    | Unsafe(key: KeyText)

  /** The address as a peer sees it: the local extras do not travel. */
  function Canonical(a: Address): Address {
    match a
    case Safe(key, _, _) => Safe(key, None, None)
    case Unsafe(_) => a
  }

  const SAFE_PREFIX := "/unix/s"
  const UNSAFE_PREFIX := "/unix/us"

  function ToMultiaddr(a: Address): string {
    match a
    case Safe(key, _, _) => SAFE_PREFIX + ":" + key
    case Unsafe(key) => UNSAFE_PREFIX + ":" + key
  }

  function Split(s: string, sep: char): (parts: seq<string>)
    ensures |parts| >= 1
  {
    if s == [] then [""]
    else
      var rest := Split(s[1..], sep);
      if s[0] == sep then [""] + rest else [[s[0]] + rest[0]] + rest[1..]
  }

  /** `TryFrom<Multiaddr>` and `TryFrom<String>`; None stands for their three errors. */
  function Parse(s: string): Option<Address> {
    var parts := Split(s, ':');
    if |parts| != 2 || !IsKeyText(parts[1]) then None
    else if parts[0] == SAFE_PREFIX then Some(Safe(parts[1], None, None))
    else if parts[0] == UNSAFE_PREFIX then Some(Unsafe(parts[1]))
    else None
  }

  lemma {:induction false} SplitNone(s: string, sep: char)
    requires sep !in s
    ensures Split(s, sep) == [s]
  {
    if s != [] {
      SplitNone(s[1..], sep);
      assert [s[0]] + s[1..] == s;
    }
  }

  lemma {:induction false} SplitAt(a: string, b: string, sep: char)
    requires sep !in a
    ensures Split(a + [sep] + b, sep) == [a] + Split(b, sep)
  {
    var s := a + [sep] + b;
    if a == [] {
      assert s[1..] == b;
    } else {
      assert s[1..] == a[1..] + [sep] + b;
      SplitAt(a[1..], b, sep);
      assert [a[0]] + a[1..] == a;
    }
  }

  lemma {:induction false} SplitJoins(s: string, sep: char)
    requires |Split(s, sep)| == 2
    ensures var parts := Split(s, sep); s == parts[0] + [sep] + parts[1]
  {
    if s[0] == sep {
      SplitIsWhole(s[1..], sep);
    } else {
      SplitJoins(s[1..], sep);
    }
  }

  lemma {:induction false} SplitIsWhole(s: string, sep: char)
    requires |Split(s, sep)| == 1
    ensures Split(s, sep)[0] == s
  {
    if s != [] {
      SplitIsWhole(s[1..], sep);
    }
  }

  lemma MultiaddrRoundTrip(a: Address)
    ensures Parse(ToMultiaddr(a)) == Some(Canonical(a))
  {
    var prefix := if a.Safe? then SAFE_PREFIX else UNSAFE_PREFIX;
    assert ':' !in a.key;
    SplitNone(a.key, ':');
    SplitAt(prefix, a.key, ':');
    assert ToMultiaddr(a) == prefix + [':'] + a.key;
  }

  /** Only the canonical text of an address parses to it, so one text names one address. */
  lemma ParseInverse(s: string)
    requires Parse(s).Some?
    ensures ToMultiaddr(Parse(s).value) == s && Canonical(Parse(s).value) == Parse(s).value
  {
    SplitJoins(s, ':');
  }

  /** The two texts an address can have. */
  lemma ParsesText(key: KeyText)
    ensures Parse("/unix/s:" + key) == Some(Safe(key, None, None))
    ensures Parse("/unix/us:" + key) == Some(Unsafe(key))
  {
    MultiaddrRoundTrip(Safe(key, None, None));
    MultiaddrRoundTrip(Unsafe(key));
    assert "/unix/s" + ":" + key == "/unix/s:" + key && "/unix/us" + ":" + key == "/unix/us:" + key;
  }

  lemma MultiaddrLength(a: Address)
    ensures |ToMultiaddr(a)| == if a.Safe? then 51 else 52
  {
  }

  // ---- the order used to settle simultaneous dials ----

  datatype Ordering = Less | Equal | Greater

  function CompareText(a: string, b: string): Ordering {
    if a == [] then (if b == [] then Equal else Less)
    else if b == [] then Greater
    else if a[0] < b[0] then Less
    else if b[0] < a[0] then Greater
    else CompareText(a[1..], b[1..])
  }

  /** Compares the typed keys' text, "VLD0:" and the key; the kind of address does not count. */
  function Compare(a: Address, b: Address): Ordering {
    CompareText("VLD0:" + a.key, "VLD0:" + b.key)
  }

  lemma {:induction false} CompareTextOrder(a: string, b: string)
    ensures CompareText(a, b) == Equal <==> a == b
    ensures CompareText(a, b) == Less <==> CompareText(b, a) == Greater
  {
    if a != [] && b != [] && a[0] == b[0] {
      CompareTextOrder(a[1..], b[1..]);
      assert a == [a[0]] + a[1..] && b == [b[0]] + b[1..];
    }
  }

  /** a comes before b: at the first difference a has the smaller character, or a ends there. */
  ghost predicate Before(a: string, b: string) {
    exists n: nat :: n <= |a| && n < |b| && a[..n] == b[..n] && (n == |a| || a[n] < b[n])
  }

  lemma BeforeStep(a: string, b: string)
    requires a != [] && b != [] && a[0] == b[0]
    ensures Before(a, b) <==> Before(a[1..], b[1..])
  {
    if n: nat :| n <= |a| && n < |b| && a[..n] == b[..n] && (n == |a| || a[n] < b[n]) {
      assert n > 0 && a[1..][..n - 1] == a[..n][1..] == b[..n][1..] == b[1..][..n - 1];
      var m: nat := n - 1;
      assert m <= |a[1..]| && m < |b[1..]| && (m == |a[1..]| || a[1..][m] < b[1..][m]);
    }
    if n: nat :| n <= |a[1..]| && n < |b[1..]| && a[1..][..n] == b[1..][..n]
                 && (n == |a[1..]| || a[1..][n] < b[1..][n]) {
      var m: nat := n + 1;
      assert a[..m] == [a[0]] + a[1..][..n] == [b[0]] + b[1..][..n] == b[..m];
      assert m <= |a| && m < |b| && (m == |a| || a[m] < b[m]);
    }
  }

  /** The order is the dictionary order of the texts. */
  lemma {:induction false} CompareTextIsDictionary(a: string, b: string)
    ensures CompareText(a, b) == Less <==> Before(a, b)
    ensures CompareText(a, b) == Greater <==> Before(b, a)
    ensures CompareText(a, b) == Equal <==> a == b
  {
    CompareTextOrder(a, b);
    if a == [] || b == [] {
      assert a[..0] == b[..0];
    } else if a[0] == b[0] {
      CompareTextIsDictionary(a[1..], b[1..]);
      BeforeStep(a, b);
      BeforeStep(b, a);
    } else {
      assert a[..0] == b[..0];
      assert a[0] < b[0] ==> Before(a, b);
      assert b[0] < a[0] ==> Before(b, a);
    }
  }

  lemma {:induction false} SamePrefix(p: string, a: string, b: string)
    ensures CompareText(p + a, p + b) == CompareText(a, b)
    decreases |p|
  {
    if p == [] {
      assert p + a == a && p + b == b;
    } else {
      SamePrefix(p[1..], a, b);
      assert (p + a)[1..] == p[1..] + a && (p + b)[1..] == p[1..] + b;
    }
  }

  /** Addresses are ordered as the texts of their keys, in dictionary order. */
  lemma CompareIsByKey(a: Address, b: Address)
    ensures Compare(a, b) == Less <==> Before(a.key, b.key)
    ensures Compare(a, b) == Greater <==> Before(b.key, a.key)
  {
    SamePrefix("VLD0:", a.key, b.key);
    CompareTextIsDictionary(a.key, b.key);
  }

  /** Roles can be chosen exactly when the keys differ, and then the two ends choose oppositely. */
  lemma CompareOpposite(a: Address, b: Address)
    ensures Compare(a, b) == Equal <==> a.key == b.key
    ensures Compare(a, b) == Less <==> Compare(b, a) == Greater
    ensures Compare(Canonical(a), b) == Compare(a, Canonical(b)) == Compare(a, b)
  {
    CompareTextOrder("VLD0:" + a.key, "VLD0:" + b.key);
    var p := "VLD0:";
    assert a.key == (p + a.key)[5..] && b.key == (p + b.key)[5..];
  }
}
