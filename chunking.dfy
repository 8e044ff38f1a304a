/**
  Fixed-size chunking of a document's text, `[text[i:i+n] for i in range(0, len(text), n)]`,
  used with n = 8000 before remote embedding and n = 1000 before mock embedding.
 */
module Chunking {
  import opened PyStr

  /** Every chunk is non-empty and at most n long. */
  function Chunks(text: string, n: nat): (cs: seq<string>)
    requires n > 0
    ensures forall i :: 0 <= i < |cs| ==> 0 < |cs[i]| <= n
    decreases |text|
  {
    if |text| == 0 then []
    else if |text| <= n then [text]
    else [text[..n]] + Chunks(text[n..], n)
  }

  /** Concatenating the chunks gives the text back. */
  lemma {:induction false} ChunksConcat(text: string, n: nat)
    requires n > 0
    ensures Concat(Chunks(text, n)) == text
    decreases |text|
  {
    if |text| > n {
      ChunksConcat(text[n..], n);
      assert ([text[..n]] + Chunks(text[n..], n))[1..] == Chunks(text[n..], n);
      assert text == text[..n] + text[n..];
    } else if |text| > 0 {
      assert [text][1..] == [];
      assert text + "" == text;
    }
  }

  /** All chunks but the last are exactly n long. */
  lemma {:induction false} ChunksSizes(text: string, n: nat)
    requires n > 0
    ensures forall i :: 0 <= i < |Chunks(text, n)| - 1 ==> |Chunks(text, n)[i]| == n
    decreases |text|
  {
    if |text| > n {
      ChunksSizes(text[n..], n);
      var cs := Chunks(text, n);
      assert forall i :: 1 <= i < |cs| ==> cs[i] == Chunks(text[n..], n)[i - 1];
    }
  }

  /** Euclidean division has one quotient: a witness q, r fixes x / n. */
  lemma DivUnique(x: nat, n: nat, q: nat, r: nat)
    requires n > 0 && r < n && x == q * n + r
    ensures x / n == q
  {
    var d, e := x / n, x % n;
    assert x == d * n + e;
    if d > q {
      MulMonotone(d - q, n);
    } else if d < q {
      MulMonotone(q - d, n);
    }
  }

  lemma MulMonotone(k: nat, n: nat)
    requires k >= 1
    ensures k * n >= n
  {
    assert k * n == (k - 1) * n + n;
  }

  lemma DivStep(a: nat, n: nat)
    requires n > 0
    ensures (a + n) / n == a / n + 1
  {
    var q, r := a / n, a % n;
    assert a == q * n + r;
    assert a + n == (q + 1) * n + r;
    DivUnique(a + n, n, q + 1, r);
  }

  lemma DivSmall(a: nat, n: nat)
    requires n <= a < n + n
    ensures a / n == 1
  {
    DivUnique(a, n, 1, a - n);
  }

  /** There are ceil(|text| / n) chunks; empty text has none. */
  lemma {:induction false} ChunksCount(text: string, n: nat)
    requires n > 0
    ensures |Chunks(text, n)| == (|text| + n - 1) / n
    ensures |text| == 0 <==> |Chunks(text, n)| == 0
    decreases |text|
  {
    if |text| == 0 {
      DivUnique(n - 1, n, 0, n - 1);
    } else if |text| <= n {
      DivSmall(|text| + n - 1, n);
    } else {
      ChunksCount(text[n..], n);
      DivStep(|text| - n + n - 1, n);
    }
  }

  lemma MulSucc(k: nat, n: nat)
    ensures (k + 1) * n == k * n + n
  {
  }

  lemma SliceOfSuffix(s: string, d: nat, a: nat, b: nat)
    requires d <= |s| && a <= b <= |s| - d
    ensures s[d..][a..b] == s[d + a..d + b]
  {
  }

  /** The k-th chunk is the slice `text[k*n : k*n + n]`, as the comprehension defines it. */
  lemma {:induction false} ChunkAt(text: string, n: nat, k: nat)
    requires n > 0
    requires k < |Chunks(text, n)|
    ensures k * n < |text|
    ensures Chunks(text, n)[k] == text[k * n .. if k * n + n <= |text| then k * n + n else |text|]
    decreases |text|
  {
    if k > 0 {
      var rest := text[n..];
      assert Chunks(text, n)[k] == Chunks(rest, n)[k - 1];
      ChunkAt(rest, n, k - 1);
      var a := (k - 1) * n;
      MulSucc(k - 1, n);
      var hi := if a + n <= |rest| then a + n else |rest|;
      SliceOfSuffix(text, n, a, hi);
    }
  }
}
