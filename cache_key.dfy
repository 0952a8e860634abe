/** The key of one cached build product and its textual form. */
module BuildProductCacheKeys {
  import opened ProductTypes

  datatype BuildProductCacheKey<C> = BuildProductCacheKey(productName: string, productType: TargetProductType, checksum: C)

  /** `"<productName> <productType> <checksum>"`, the product type by its case name. */
  function Description<C>(stringValue: C -> string, k: BuildProductCacheKey<C>): (r: string)
    ensures |r| == |k.productName| + 1 + |CaseName(k.productType)| + 1 + |stringValue(k.checksum)|
    ensures r[..|k.productName|] == k.productName && r[|k.productName|] == ' '
    ensures r[|r| - |stringValue(k.checksum)|..] == stringValue(k.checksum)
  {
    k.productName + " " + CaseName(k.productType) + " " + stringValue(k.checksum)
  }

  lemma CaseNameHasNoSpace(t: TargetProductType)
    ensures ' ' !in CaseName(t)
  {
  }

  lemma LeftIndex(x: string, y: string, i: nat)
    ensures i < |x| ==> (x + y)[i] == x[i]
  {
  }

  /** Two words without spaces, each followed by a space, are split back apart. */
  lemma {:induction false} SplitAtSpace(a: string, b: string, c: string, d: string)
    requires ' ' !in a && ' ' !in c
    requires a + " " + b == c + " " + d
    ensures a == c && b == d
  {
    var s := a + " " + b;
    if |a| == |c| {
      assert a == s[..|a|] == c;
      assert b == s[|a| + 1..] == d;
    } else {
      LeftIndex(a + " ", b, |c|);
      LeftIndex(c + " ", d, |a|);
    }
  }

  /**
   * The description identifies the key: for product names without spaces,
   * equal descriptions mean equal product names, equal product types and
   * equal rendered checksums.
   */
  lemma DescriptionIdentifiesKey<C>(stringValue: C -> string, k1: BuildProductCacheKey<C>, k2: BuildProductCacheKey<C>)
    requires ' ' !in k1.productName && ' ' !in k2.productName
    requires Description(stringValue, k1) == Description(stringValue, k2)
    ensures k1.productName == k2.productName
    ensures k1.productType == k2.productType
    ensures stringValue(k1.checksum) == stringValue(k2.checksum)
  {
    DescriptionWords(stringValue, k1);
    DescriptionWords(stringValue, k2);
    CaseNameHasNoSpace(k1.productType);
    CaseNameHasNoSpace(k2.productType);
    ThreeWords(k1.productName, CaseName(k1.productType), stringValue(k1.checksum),
               k2.productName, CaseName(k2.productType), stringValue(k2.checksum));
    CaseNameInjective(k1.productType, k2.productType);
  }

  /** The description is the three words joined by single spaces, the last two grouped. */
  lemma DescriptionWords<C>(stringValue: C -> string, k: BuildProductCacheKey<C>)
    ensures Description(stringValue, k) == k.productName + " " + (CaseName(k.productType) + " " + stringValue(k.checksum))
  {
  }

  /** Two texts of three words, the first two without spaces, agree word by word when they agree. */
  lemma ThreeWords(a1: string, b1: string, c1: string, a2: string, b2: string, c2: string)
    requires ' ' !in a1 && ' ' !in a2 && ' ' !in b1 && ' ' !in b2
    requires a1 + " " + (b1 + " " + c1) == a2 + " " + (b2 + " " + c2)
    ensures a1 == a2 && b1 == b2 && c1 == c2
  {
    SplitAtSpace(a1, b1 + " " + c1, a2, b2 + " " + c2);
    SplitAtSpace(b1, c1, b2, c2);
  }

  /** Distinct product types have distinct case names. */
  lemma CaseNameInjective(t1: TargetProductType, t2: TargetProductType)
    requires CaseName(t1) == CaseName(t2)
    ensures t1 == t2
  {
  }
}
