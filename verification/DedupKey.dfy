/**
 The deduplication key: five fields joined by "|". A display path may contain "|", and still no two files share a key.
 */
module DedupKey {
  import opened PythonText

  /**
   A UUID as text, and a SHA-256 digest in hexadecimal, have fixed lengths; the hash of the key is free of collisions.
   */
  predicate IsUuid(s: string) {
    |s| == 36
  }

  predicate IsDigest(s: string) {
    |s| == 64
  }

  datatype FileIdentity = FileIdentity(watcher: string, source: string, display: string, size: nat, digest: string)
  {
    predicate Valid() {
      IsUuid(watcher) && IsUuid(source) && IsDigest(digest)
    }

    /** `compute_deduplication_key`, before hashing. */
    function Key(): string {
      Join([watcher, source, display, Decimal(size), digest], '|')
    }
  }

  function Digit(n: nat): char
    requires n < 10
  {
    (48 + n) as char
  }

  function Decimal(n: nat): string {
    if n < 10 then [Digit(n)] else Decimal(n / 10) + [Digit(n % 10)]
  }

  /** Reading a numeral. */
  function Numeral(s: string): int {
    if s == "" then 0 else 10 * Numeral(s[..|s| - 1]) + (s[|s| - 1] as int - 48)
  }

  lemma {:induction false} NumeralOfDecimal(n: nat)
    ensures Numeral(Decimal(n)) == n
    decreases n
  {
    if n < 10 {
      assert Numeral([Digit(n)][..0]) == 0;
    } else {
      NumeralOfDecimal(n / 10);
      assert (Decimal(n / 10) + [Digit(n % 10)])[..|Decimal(n / 10)|] == Decimal(n / 10);
    }
  }

  lemma {:induction false} DecimalHasNoBar(n: nat)
    ensures '|' !in Decimal(n)
    decreases n
  {
    if n >= 10 {
      DecimalHasNoBar(n / 10);
    }
  }

  /** The key from the outside in: fixed lengths at both ends, and between them the last bar before the size. */
  function Inner(id: FileIdentity): string {
    id.display + "|" + Decimal(id.size)
  }

  lemma KeyLayout(id: FileIdentity)
    ensures id.Key() == id.watcher + "|" + id.source + "|" + Inner(id) + "|" + id.digest
  {
    var parts := [id.watcher, id.source, id.display, Decimal(id.size), id.digest];
    assert parts[..4] == [id.watcher, id.source, id.display, Decimal(id.size)];
    assert parts[..4][..3] == [id.watcher, id.source, id.display];
    assert [id.watcher, id.source, id.display][..2] == [id.watcher, id.source];
    assert [id.watcher, id.source][..1] == [id.watcher];
    calc {
      id.Key();
      Join(parts[..4], '|') + "|" + id.digest;
      Join([id.watcher, id.source, id.display], '|') + "|" + Decimal(id.size) + "|" + id.digest;
      Join([id.watcher, id.source], '|') + "|" + id.display + "|" + Decimal(id.size) + "|" + id.digest;
      id.watcher + "|" + id.source + "|" + id.display + "|" + Decimal(id.size) + "|" + id.digest;
      id.watcher + "|" + id.source + "|" + Inner(id) + "|" + id.digest;
    }
  }

  /** Text before the last bar, and after it, is determined when what follows it has no bar. */
  lemma LastBar(a: string, b: string, c: string, d: string)
    requires a + "|" + b == c + "|" + d && '|' !in b && '|' !in d
    ensures a == c && b == d
  {
    var s := a + "|" + b;
    assert s[|a|] == '|' && s[|c|] == '|';
    assert !(|a| < |c|) && !(|c| < |a|);
    assert a == s[..|a|] && c == s[..|c|];
    assert b == s[|a| + 1..] && d == s[|c| + 1..];
  }

  /** Equal keys mean equal files, field by field. */
  lemma KeyIsInjective(a: FileIdentity, b: FileIdentity)
    requires a.Valid() && b.Valid() && a.Key() == b.Key()
    ensures a == b
  {
    KeyLayout(a);
    KeyLayout(b);
    FixedEnds(a.watcher, a.source, Inner(a), a.digest, b.watcher, b.source, Inner(b), b.digest);
    DecimalHasNoBar(a.size);
    DecimalHasNoBar(b.size);
    LastBar(a.display, Decimal(a.size), b.display, Decimal(b.size));
    NumeralOfDecimal(a.size);
    NumeralOfDecimal(b.size);
  }

  lemma FixedEnds(w: string, s: string, m: string, d: string, w': string, s': string, m': string, d': string)
    requires |w| == |w'| && |s| == |s'| && |d| == |d'|
    requires w + "|" + s + "|" + m + "|" + d == w' + "|" + s' + "|" + m' + "|" + d'
    ensures w == w' && s == s' && m == m' && d == d'
  {
    var t := w + "|" + s + "|" + m + "|" + d;
    var i, k := |w| + 1, |w| + 1 + |s| + 1;
    assert w == t[..|w|] && w' == t[..|w|];
    assert s == t[i..i + |s|] && s' == t[i..i + |s|];
    assert |m| == |m'|;
    assert m == t[k..k + |m|] && m' == t[k..k + |m|];
    assert d == t[k + |m| + 1..] && d' == t[k + |m| + 1..];
  }
}
