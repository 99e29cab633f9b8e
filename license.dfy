/** License detection, classification into risk tiers, and the allow/block policy. */
module License {
  import opened Wrappers
  import opened Strings
  import opened Types
  import opened Config

  /** The string every detection currently reports. */
  const UnknownLicense := "Unknown"

  /** Detection is a stub: every module, on GitHub or elsewhere, is reported as
      "Unknown", and detection never fails. */
  function DetectLicense(modulePath: string, version: string): (r: Result<string>)
    ensures r.Ok? && r.value == UnknownLicense
  {
    if Contains(modulePath, "github.com/") then Ok(UnknownLicense) else Ok(UnknownLicense)
  }

  /** The keyword families, in the order in which they are tried. */
  const PermissiveKeywords: seq<string> := ["mit", "apache", "bsd", "isc"]
  const CopyleftKeywords: seq<string> := ["gpl", "agpl", "mozilla"]
  const RestrictiveKeywords: seq<string> := ["proprietary", "commercial"]

  /** The lower-cased license mentions one of the family's keywords. */
  predicate Mentions(l: string, family: seq<string>) {
    exists k :: k in family && Contains(l, k)
  }

  /** `ClassifyLicense`: a case-insensitive substring search over the keyword
      families; the first family with a hit decides. */
  function ClassifyLicense(license: string): (risk: LicenseRisk)
    ensures IsLicenseRisk(risk)
  {
    var l := Lower(license);
    if Contains(l, "mit") || Contains(l, "apache") || Contains(l, "bsd") || Contains(l, "isc") then
      LicensePermissive
    else if Contains(l, "gpl") || Contains(l, "agpl") || Contains(l, "mozilla") then
      LicenseCopyleft
    else if Contains(l, "proprietary") || Contains(l, "commercial") then
      LicenseRestrictive
    else
      LicenseUnknown
  }

  /** The precedence of the families: a permissive keyword wins even beside "gpl";
      copyleft needs no permissive keyword; restrictive needs neither; otherwise unknown. */
  lemma ClassifyPrecedence(license: string)
    ensures var l := Lower(license);
      && (ClassifyLicense(license) == LicensePermissive <==> Mentions(l, PermissiveKeywords))
      && (ClassifyLicense(license) == LicenseCopyleft <==>
            !Mentions(l, PermissiveKeywords) && Mentions(l, CopyleftKeywords))
      && (ClassifyLicense(license) == LicenseRestrictive <==>
            !Mentions(l, PermissiveKeywords) && !Mentions(l, CopyleftKeywords)
            && Mentions(l, RestrictiveKeywords))
      && (ClassifyLicense(license) == LicenseUnknown <==>
            !Mentions(l, PermissiveKeywords) && !Mentions(l, CopyleftKeywords)
            && !Mentions(l, RestrictiveKeywords))
  {
    var l := Lower(license);
    if Mentions(l, PermissiveKeywords) {
      var k :| k in PermissiveKeywords && Contains(l, k);
    } else if Mentions(l, CopyleftKeywords) {
      var k :| k in CopyleftKeywords && Contains(l, k);
    } else if Mentions(l, RestrictiveKeywords) {
      var k :| k in RestrictiveKeywords && Contains(l, k);
    }
  }

  /** Classification ignores case: upper-casing or lower-casing the license first changes nothing,
      so two licenses that agree after lower-casing always share a tier. */
  lemma ClassifyIgnoresCase(license: string)
    ensures ClassifyLicense(Upper(license)) == ClassifyLicense(license)
    ensures ClassifyLicense(Lower(license)) == ClassifyLicense(license)
  {
    LowerOfUpper(license);
    forall i | 0 <= i < |license|
      ensures Lower(Lower(license))[i] == Lower(license)[i]
    {
    }
    assert Lower(Lower(license)) == Lower(license);
  }

  /** The "agpl" keyword never decides anything: every license that mentions it also mentions "gpl". */
  lemma AgplKeywordRedundant(license: string)
    ensures var l := Lower(license);
      Contains(l, "agpl") ==> Contains(l, "gpl")
  {
    var l := Lower(license);
    if Contains(l, "agpl") {
      assert "agpl" == "a" + "gpl";
      ContainsSuffix(l, "a", "gpl");
    }
  }

  /** A string that lacks one of the characters of `sub` cannot contain `sub`. */
  lemma {:induction false} MissingCharNotContained(s: string, sub: string, c: char)
    requires c in sub && c !in s
    ensures !Contains(s, sub)
    decreases |s|
  {
    PrefixChars(s, sub);
    if |s| > 0 {
      MissingCharNotContained(s[1..], sub, c);
    }
  }

  /** Every character of a prefix occurs in the string. */
  lemma PrefixChars(s: string, sub: string)
    ensures HasPrefix(s, sub) ==> forall ch :: ch in sub ==> ch in s
  {
    if HasPrefix(s, sub) {
      forall ch | ch in sub
        ensures ch in s
      {
        var i :| 0 <= i < |sub| && sub[i] == ch;
        assert s[i] == ch;
      }
    }
  }

  lemma LowerUnknown()
    ensures Lower(UnknownLicense) == "unknown"
  {
  }

  /** A license without the letters m, a, b and i mentions no permissive keyword. */
  lemma NotPermissiveWithout(l: string)
    requires 'm' !in l && 'a' !in l && 'b' !in l && 'i' !in l
    ensures !Mentions(l, PermissiveKeywords)
  {
    MissingCharNotContained(l, "mit", 'm');
    MissingCharNotContained(l, "apache", 'a');
    MissingCharNotContained(l, "bsd", 'b');
    MissingCharNotContained(l, "isc", 'i');
  }

  /** A license without the letters g and m mentions no copyleft keyword. */
  lemma NotCopyleftWithout(l: string)
    requires 'g' !in l && 'm' !in l
    ensures !Mentions(l, CopyleftKeywords)
  {
    MissingCharNotContained(l, "gpl", 'g');
    MissingCharNotContained(l, "agpl", 'g');
    MissingCharNotContained(l, "mozilla", 'm');
  }

  /** A license without the letters p and c mentions no restrictive keyword. */
  lemma NotRestrictiveWithout(l: string)
    requires 'p' !in l && 'c' !in l
    ensures !Mentions(l, RestrictiveKeywords)
  {
    MissingCharNotContained(l, "proprietary", 'p');
    MissingCharNotContained(l, "commercial", 'c');
  }

  /** Whatever module is detected, the detected license classifies as `LicenseUnknown`. */
  lemma DetectedLicenseIsUnknownRisk(modulePath: string, version: string)
    ensures ClassifyLicense(DetectLicense(modulePath, version).value) == LicenseUnknown
  {
    var l := Lower(UnknownLicense);
    LowerUnknown();
    NotPermissiveWithout(l);
    NotCopyleftWithout(l);
    NotRestrictiveWithout(l);
    ClassifyPrecedence(UnknownLicense);
  }

  const BlockedWarning := "License is explicitly blocked"
  const NotAllowedWarning := "License is not in the allowed list"
  const CopyleftWarning := "Copyleft license detected"
  const UnknownWarning := "Unknown license detected"

  /** A policy entry matches when, both upper-cased, the entry occurs in the license. */
  predicate MatchesEntry(license: string, entry: string) {
    Contains(Upper(license), Upper(entry))
  }

  predicate MatchesAny(license: string, entries: seq<string>) {
    exists e :: e in entries && MatchesEntry(license, e)
  }

  /** The opt-in warnings of an allowed license, copyleft first. */
  function RiskWarnings(risk: LicenseRisk, policy: LicensePolicy): seq<string> {
    (if policy.warnOnCopyleft && risk == LicenseCopyleft then [CopyleftWarning] else [])
    + (if policy.warnOnUnknown && risk == LicenseUnknown then [UnknownWarning] else [])
  }

  /** What the policy decides about a license: a block-list hit rejects outright, a
      non-empty allow-list is a strict whitelist, and only then do the warnings apply. */
  function PolicyVerdict(license: string, policy: LicensePolicy): (bool, seq<string>) {
    if MatchesAny(license, policy.blockedLicenses) then
      (false, [BlockedWarning])
    else if |policy.allowedLicenses| > 0 && !MatchesAny(license, policy.allowedLicenses) then
      (false, [NotAllowedWarning])
    else
      (true, RiskWarnings(ClassifyLicense(license), policy))
  }

  /** `CheckLicensePolicy`: the block-list loop and the allow-list loop with its
      `found` flag, both with early returns, then the warnings. */
  method CheckLicensePolicy(license: string, policy: LicensePolicy) returns (allowed: bool, warnings: seq<string>)
    ensures (allowed, warnings) == PolicyVerdict(license, policy)
  {
    var l := Upper(license);
    for i := 0 to |policy.blockedLicenses|
      invariant forall j :: 0 <= j < i ==> !MatchesEntry(license, policy.blockedLicenses[j])
    {
      if Contains(l, Upper(policy.blockedLicenses[i])) {
        assert MatchesEntry(license, policy.blockedLicenses[i]);
        return false, [BlockedWarning];
      }
    }
    assert !MatchesAny(license, policy.blockedLicenses);
    if |policy.allowedLicenses| > 0 {
      var found := false;
      var i := 0;
      while i < |policy.allowedLicenses|
        invariant 0 <= i <= |policy.allowedLicenses|
        invariant !found
        invariant forall j :: 0 <= j < i ==> !MatchesEntry(license, policy.allowedLicenses[j])
        decreases |policy.allowedLicenses| - i
      {
        if Contains(l, Upper(policy.allowedLicenses[i])) {
          assert MatchesEntry(license, policy.allowedLicenses[i]);
          found := true;
          break;
        }
        i := i + 1;
      }
      if !found {
        assert !MatchesAny(license, policy.allowedLicenses);
        return false, [NotAllowedWarning];
      }
      assert MatchesAny(license, policy.allowedLicenses);
    }
    var risk := ClassifyLicense(license);
    warnings := [];
    if policy.warnOnCopyleft && risk == LicenseCopyleft {
      warnings := warnings + [CopyleftWarning];
    }
    if policy.warnOnUnknown && risk == LicenseUnknown {
      warnings := warnings + [UnknownWarning];
    }
    assert warnings == RiskWarnings(risk, policy);
    return true, warnings;
  }

  /** The block-list takes precedence over the allow-list: one blocked hit rejects the
      license with the single "blocked" warning, whatever the allow-list holds. */
  lemma BlockTakesPrecedence(license: string, policy: LicensePolicy, entry: string)
    requires entry in policy.blockedLicenses && MatchesEntry(license, entry)
    ensures PolicyVerdict(license, policy) == (false, [BlockedWarning])
  {
  }

  /** An empty block-list entry occurs in every license, so it blocks everything. */
  lemma EmptyBlockedEntryBlocksAll(license: string, policy: LicensePolicy)
    requires "" in policy.blockedLicenses
    ensures PolicyVerdict(license, policy) == (false, [BlockedWarning])
  {
    assert MatchesEntry(license, "");
  }

  /** Without a block-list hit, a non-empty allow-list without a hit rejects the license. */
  lemma StrictWhitelist(license: string, policy: LicensePolicy)
    requires !MatchesAny(license, policy.blockedLicenses)
    requires |policy.allowedLicenses| > 0 && !MatchesAny(license, policy.allowedLicenses)
    ensures PolicyVerdict(license, policy) == (false, [NotAllowedWarning])
  {
  }

  /** With neither list, every license is allowed. */
  lemma NoListsAllowEverything(license: string, policy: LicensePolicy)
    requires policy.blockedLicenses == [] && policy.allowedLicenses == []
    ensures PolicyVerdict(license, policy).0
  {
  }

  /** A rejection carries exactly one warning. An allowed license carries each opt-in
      warning exactly when its toggle is on and the tier matches, copyleft first; since a
      license has one tier, it never carries both. */
  lemma VerdictWarnings(license: string, policy: LicensePolicy)
    ensures var (allowed, warnings) := PolicyVerdict(license, policy);
      var risk := ClassifyLicense(license);
      && (!allowed ==> |warnings| == 1)
      && (allowed ==>
            && |warnings| <= 1
            && (CopyleftWarning in warnings <==> policy.warnOnCopyleft && risk == LicenseCopyleft)
            && (UnknownWarning in warnings <==> policy.warnOnUnknown && risk == LicenseUnknown)
            && (forall w :: w in warnings ==> w == CopyleftWarning || w == UnknownWarning))
  {
  }

  /** Under the default policy the detected license "Unknown" is rejected as not allowed. */
  lemma DefaultPolicyRejectsDetected(modulePath: string, version: string)
    ensures PolicyVerdict(DetectLicense(modulePath, version).value, DefaultLicensePolicy())
         == (false, [NotAllowedWarning])
  {
    var policy := DefaultLicensePolicy();
    var u := Upper(UnknownLicense);
    assert u == "UNKNOWN";
    forall e | e in policy.allowedLicenses
      ensures !MatchesEntry(UnknownLicense, e)
    {
      var ue := Upper(e);
      assert ue[0] == UpperChar(e[0]);
      assert ue[0] in ue;
      MissingCharNotContained(u, ue, ue[0]);
    }
  }

  /** Each allow-listed identifier of the default policy starts, lower-cased, with a
      permissive keyword. */
  lemma DefaultEntriesPermissive(license: string)
    requires license in DefaultLicensePolicy().allowedLicenses
    ensures ClassifyLicense(license) == LicensePermissive
  {
    var l := Lower(license);
    var k := if license == "MIT" then "mit"
             else if license == "Apache-2.0" then "apache"
             else if license == "ISC" then "isc"
             else "bsd";
    assert l[..|k|] == k;
    assert HasPrefix(l, k);
  }

  /** Under the default policy each allow-listed identifier is itself allowed, without warnings. */
  lemma DefaultPolicyAllowsItsEntries(license: string)
    requires license in DefaultLicensePolicy().allowedLicenses
    ensures PolicyVerdict(license, DefaultLicensePolicy()) == (true, [])
  {
    assert MatchesEntry(license, license) by {
      assert HasPrefix(Upper(license), Upper(license));
    }
    DefaultEntriesPermissive(license);
  }
}
