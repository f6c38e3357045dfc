/** Identifiers of the jobs of the block queue.

    The source builds them as text. Here a key records what the text was built from, and
    RenderIsInjective shows that nothing is lost by doing so. */
module JobKeys {
  import opened Decimal

  /** AutoKey is the identifier the queue itself hands out to a job added without one. */
  datatype JobKey =
    | BlockKey(height: int)
    | RangeKey(from: int, to: int)
    | AutoKey(n: nat)

  /** The part of an identifier that follows the chain id. */
  function Suffix(key: JobKey): string
    requires !key.AutoKey?
  {
    match key
    case BlockKey(height) => "-block-" + Print(height)
    case RangeKey(from, to) => "-check-block-range-" + (Print(from) + ("-" + Print(to)))
  }

  function Render(chainId: string, key: JobKey): string {
    if key.AutoKey? then Print(key.n) else chainId + Suffix(key)
  }

  lemma BlockSuffixInjective(g: int, h: int)
    requires Suffix(BlockKey(g)) == Suffix(BlockKey(h))
    ensures g == h
  {
    CancelPrefix("-block-", Print(g), Print(h));
    assert Print(g) + "" == Print(h) + "";
    PrintIsPrefixCode(g, "", h, "");
  }

  lemma RangeSuffixInjective(a: int, b: int, c: int, d: int)
    requires Suffix(RangeKey(a, b)) == Suffix(RangeKey(c, d))
    ensures a == c && b == d
  {
    CancelPrefix("-check-block-range-", Print(a) + ("-" + Print(b)), Print(c) + ("-" + Print(d)));
    PrintIsPrefixCode(a, "-" + Print(b), c, "-" + Print(d));
    CancelPrefix("-", Print(b), Print(d));
    assert Print(b) + "" == Print(d) + "";
    PrintIsPrefixCode(b, "", d, "");
  }

  lemma SuffixInjective(k: JobKey, l: JobKey)
    requires !k.AutoKey? && !l.AutoKey? && Suffix(k) == Suffix(l)
    ensures k == l
  {
    var s := Suffix(k);
    assert k.BlockKey? ==> s[1] == 'b';
    assert k.RangeKey? ==> s[1] == 'c';
    assert l.BlockKey? ==> s[1] == 'b';
    assert l.RangeKey? ==> s[1] == 'c';
    if k.BlockKey? {
      BlockSuffixInjective(k.height, l.height);
    } else {
      RangeSuffixInjective(k.from, k.to, l.from, l.to);
    }
  }

  lemma DashInIdentifier(chainId: string, key: JobKey)
    requires !key.AutoKey?
    ensures '-' in Render(chainId, key)
  {
    assert Render(chainId, key)[|chainId|] == '-';
  }

  /** For one chain, two jobs share an identifier only when they have the same target, so
      de-duplication never merges jobs with different work. */
  lemma RenderIsInjective(chainId: string, k: JobKey, l: JobKey)
    requires Render(chainId, k) == Render(chainId, l)
    ensures k == l
  {
    if k.AutoKey? || l.AutoKey? {
      if k.AutoKey? { NumeralHasNoDash(k.n); } else { DashInIdentifier(chainId, k); }
      if l.AutoKey? { NumeralHasNoDash(l.n); } else { DashInIdentifier(chainId, l); }
      assert Print(k.n) + "" == Print(l.n) + "";
      PrintIsPrefixCode(k.n, "", l.n, "");
    } else {
      CancelPrefix(chainId, Suffix(k), Suffix(l));
      SuffixInjective(k, l);
    }
  }
}
