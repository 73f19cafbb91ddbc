/**
 * `verifyMeterNumber`: a meter number is accepted for a company when it is
 * non-empty, all digits, eleven long, the company has a prefix list, and one
 * of those prefixes starts the number. The checks run in that order and the
 * first one to fail rejects.
 */
module MeterValidator {
  import opened JsText
  import opened Disco

  /** Some prefix of the list starts `meter`. */
  predicate StartsWithAny(prefixes: seq<string>, meter: string)
  {
    exists i :: 0 <= i < |prefixes| && prefixes[i] <= meter
  }

  /** The indexed and the membership reading of "some prefix starts the number" agree. */
  lemma StartsWithAnyIff(prefixes: seq<string>, meter: string)
    ensures StartsWithAny(prefixes, meter) <==> exists p :: p in prefixes && p <= meter
  {
    if StartsWithAny(prefixes, meter) {
      var i :| 0 <= i < |prefixes| && prefixes[i] <= meter;
      assert prefixes[i] in prefixes;
    }
    if exists p :: p in prefixes && p <= meter {
      var p :| p in prefixes && p <= meter;
      var i :| 0 <= i < |prefixes| && prefixes[i] == p;
    }
  }

  /** The validator's verdict, as the ordered checks decide it. */
  predicate MeterNumberValid(meter: string, disco: string)
  {
    if meter == [] || disco == [] then false
    else if !AllDigits(meter) then false
    else if |meter| != 11 then false
    else if disco !in DiscoPrefixes then false
    else StartsWithAny(DiscoPrefixes[disco], meter)
  }

  /**
   * The validator as the source runs it: the guards, then a scan of the
   * company's prefixes in order that sets a flag and stops at the first match.
   */
  method VerifyMeterNumber(meter: string, disco: string) returns (ok: bool)
    ensures ok == MeterNumberValid(meter, disco)
    ensures meter == [] || disco == [] ==> !ok
    ensures !AllDigits(meter) || |meter| != 11 ==> !ok
    ensures disco !in DiscoPrefixes ==> !ok
    ensures AllDigits(meter) && |meter| == 11 && disco in DiscoPrefixes ==>
      (ok <==> exists p :: p in DiscoPrefixes[disco] && p <= meter)
  {
    if meter == [] || disco == [] {
      return false;
    }
    if !AllDigits(meter) {
      return false;
    }
    if |meter| != 11 {
      return false;
    }
    if disco !in DiscoPrefixes {
      return false;
    }
    var prefixes := DiscoPrefixes[disco];
    var hasValidPrefix := false;
    var i := 0;
    while i < |prefixes|
      invariant 0 <= i <= |prefixes|
      invariant hasValidPrefix <==> exists j :: 0 <= j < i && prefixes[j] <= meter
      invariant hasValidPrefix ==> i < |prefixes|
    {
      if prefixes[i] <= meter {
        hasValidPrefix := true;
        break;
      }
      i := i + 1;
    }
    StartsWithAnyIff(prefixes, meter);
    return hasValidPrefix;
  }

  /** For eleven-digit numbers the verdict is exactly "some prefix of the company starts the number". */
  lemma ValidIffSomePrefix(meter: string, disco: string)
    requires AllDigits(meter) && |meter| == 11
    ensures MeterNumberValid(meter, disco) <==>
      disco in DiscoPrefixes && exists p :: p in DiscoPrefixes[disco] && p <= meter
  {
    if disco in DiscoPrefixes {
      StartsWithAnyIff(DiscoPrefixes[disco], meter);
    }
  }

  /** A valid number is eleven digits, so every accepted number is usable in a file name. */
  lemma ValidMeterIsElevenDigits(meter: string, disco: string)
    requires MeterNumberValid(meter, disco)
    ensures AllDigits(meter) && |meter| == 11 && disco in DiscoPrefixes
  {
  }

  /**
   * Prefix ranges of different companies are disjoint except for one overlap:
   * AEDC's `04123` lies inside IE's `0412`, so a number starting `04123` is
   * valid for both. No other number is valid for two companies.
   */
  lemma ValidForTwoCompanies(meter: string, d1: string, d2: string)
    requires d1 != d2 && MeterNumberValid(meter, d1) && MeterNumberValid(meter, d2)
    ensures {d1, d2} == {"AEDC", "IE"} && "04123" <= meter
  {
    var i1 :| 0 <= i1 < |DiscoPrefixes[d1]| && DiscoPrefixes[d1][i1] <= meter;
    var i2 :| 0 <= i2 < |DiscoPrefixes[d2]| && DiscoPrefixes[d2][i2] <= meter;
    var p1, p2 := DiscoPrefixes[d1][i1], DiscoPrefixes[d2][i2];
    assert p1[..4] == meter[..4] == p2[..4];
    PrefixesDisjoint(d1, i1, d2, i2);
  }

  /** Every prefix of every company opens with `04`, so no other number is valid for any company. */
  lemma ValidStartsWith04(meter: string, disco: string)
    requires MeterNumberValid(meter, disco)
    ensures meter[0] == '0' && meter[1] == '4'
  {
    var i :| 0 <= i < |DiscoPrefixes[disco]| && DiscoPrefixes[disco][i] <= meter;
    OwnerOfPrefix(disco, i);
  }

  /** The table-level fact behind the previous lemma: which prefixes of two companies agree on four digits. */
  lemma PrefixesDisjoint(d1: string, i1: int, d2: string, i2: int)
    requires d1 in DiscoPrefixes && 0 <= i1 < |DiscoPrefixes[d1]|
    requires d2 in DiscoPrefixes && 0 <= i2 < |DiscoPrefixes[d2]|
    requires d1 != d2
    ensures DiscoPrefixes[d1][i1][..4] == DiscoPrefixes[d2][i2][..4] ==>
      {d1, d2} == {"AEDC", "IE"} && ("04123" == DiscoPrefixes[d1][i1] || "04123" == DiscoPrefixes[d2][i2])
  {
    OwnerOfPrefix(d1, i1);
    OwnerOfPrefix(d2, i2);
  }

  /** The four leading digits of a prefix name its company, save AEDC's `04123`, whose head `0412` is IE's. */
  lemma OwnerOfPrefix(d: string, i: int)
    requires d in DiscoPrefixes && 0 <= i < |DiscoPrefixes[d]|
    ensures var p := DiscoPrefixes[d][i];
      |p| >= 4 && p[0] == '0' && p[1] == '4'
      && (p == "04123" ==> d == "AEDC" && HeadOwner(p[..4]) == "IE")
      && (p != "04123" ==> HeadOwner(p[..4]) == d)
  {
  }

  /**
   * The company a listed prefix's four-digit head belongs to. It is defined
   * for every head, but only its value on the heads of listed prefixes
   * (`OwnerOfPrefix`) is meaningful.
   */
  function HeadOwner(h: string): string
    requires |h| >= 4
  {
    if h[2] == '0' then "AEDC"
    else if h[2] == '1' then (if h[3] <= '2' then "IE" else "EKEDC")
    else if h[2] == '2' then "EEDC" else if h[2] == '3' then "BEDC" else if h[2] == '4' then "KEDCO"
    else if h[2] == '5' then "JED" else if h[2] == '6' then "PHED" else if h[2] == '7' then "KAEDCO"
    else if h[2] == '8' then "YEDC" else "IBEDC"
  }
}
