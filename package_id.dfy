/** `NmPackageId`: a package name and a version label. Its class is not among the
    modelled sources; its behaviour is the one its tests pin down: the qualified id
    joins both parts with a backslash, and equality is exact (case-sensitive). */
module PackageIds {
  import opened Strings
  import opened WindowsPaths

  datatype NmPackageId = NmPackageId(packageId: string, versionId: string) {
    /** `qualifiedId`: `packageId + "\\" + versionId` */
    function QualifiedId(): string {
      packageId + "\\" + versionId
    }
  }

  /** An id whose parts survive the trip through a Windows path: each part is
      non-empty, holds neither `\` nor `/`, and is not `.`. */
  predicate ValidId(id: NmPackageId) {
    Clean(id.packageId) && Clean(id.versionId)
  }

  /** On valid ids the qualified id is a faithful key: distinct ids have distinct keys. */
  lemma QualifiedIdInjective(a: NmPackageId, b: NmPackageId)
    requires ValidId(a) && ValidId(b) && a.QualifiedId() == b.QualifiedId()
    ensures a == b
  {
    var qa, qb := a.QualifiedId(), b.QualifiedId();
    assert qa == a.packageId + ("\\" + a.versionId);
    assert qb == b.packageId + ("\\" + b.versionId);
    FirstSepPrefix(a.packageId, "\\" + a.versionId);
    FirstSepPrefix(b.packageId, "\\" + b.versionId);
    assert a.packageId == qa[..|a.packageId|] == qb[..|b.packageId|] == b.packageId;
    assert a.versionId == qa[|a.packageId| + 1..] == qb[|b.packageId| + 1..] == b.versionId;
  }

  /** A character a git project slug may hold: `[A-Za-z0-9_.-]`. */
  predicate SlugSafe(c: char) {
    ('A' <= c <= 'Z') || ('a' <= c <= 'z') || ('0' <= c <= '9') || c == '_' || c == '.' || c == '-'
  }

  function SlugChar(c: char): char {
    if SlugSafe(c) then c else '_'
  }

  /** Every character outside `[A-Za-z0-9_.-]` becomes `_`. */
  function SanitizeChars(q: string): (r: string)
    ensures |r| == |q| && forall i :: 0 <= i < |q| ==> r[i] == SlugChar(q[i])
  {
    seq(|q|, i requires 0 <= i < |q| => SlugChar(q[i]))
  }

  /** A leading `-` is replaced by `_`. */
  function FixLeadingDash(s: string): string {
    if |s| > 0 && s[0] == '-' then "_" + s[1..] else s
  }

  /** A trailing `.git` or `.atom` becomes `_git` or `_atom`. */
  function FixSuffix(s: string): string {
    if EndsWith(s, ".git") then s[..|s| - 4] + "_git"
    else if EndsWith(s, ".atom") then s[..|s| - 5] + "_atom"
    else s
  }

  /** The git project slug of a package, built from its qualified id in three
      passes whose order matters. */
  function Slug(id: NmPackageId): string {
    FixSuffix(FixLeadingDash(SanitizeChars(id.QualifiedId())))
  }

  /** The slug holds only slug-safe characters, does not start with `-`, and does
      not end with `.git` or `.atom`. */
  lemma SlugWellFormed(id: NmPackageId)
    ensures forall i :: 0 <= i < |Slug(id)| ==> SlugSafe(Slug(id)[i])
    ensures |Slug(id)| > 0 && Slug(id)[0] != '-'
    ensures !EndsWith(Slug(id), ".git") && !EndsWith(Slug(id), ".atom")
  {
    var safe := SanitizeChars(id.QualifiedId());
    var lead := FixLeadingDash(safe);
    assert forall i :: 0 <= i < |lead| ==> SlugSafe(lead[i]);
    assert |lead| > 0 && lead[0] != '-';
    FixSuffixWellFormed(lead);
  }

  lemma FixSuffixWellFormed(s: string)
    requires forall i :: 0 <= i < |s| ==> SlugSafe(s[i])
    requires |s| > 0 && s[0] != '-'
    ensures forall i :: 0 <= i < |FixSuffix(s)| ==> SlugSafe(FixSuffix(s)[i])
    ensures |FixSuffix(s)| > 0 && FixSuffix(s)[0] != '-'
    ensures !EndsWith(FixSuffix(s), ".git") && !EndsWith(FixSuffix(s), ".atom")
  {
    var r := FixSuffix(s);
    if EndsWith(s, ".git") {
      assert r[|r| - 4] == '_';
    } else if EndsWith(s, ".atom") {
      assert r[|r| - 5] == '_';
      assert r[|r| - 4] == 'a';
    }
  }

  /** A slug the package manager's tests expect: a leading `-` is replaced. */
  lemma SlugLeadingDashExample()
    ensures Slug(NmPackageId("-package", "1")) == "_package_1"
  {
    var q := NmPackageId("-package", "1").QualifiedId();
    assert q == "-package\\1";
    var safe := SanitizeChars(q);
    assert safe[8] == '_';
    assert safe == "-package_1";
    assert FixLeadingDash(safe) == "_package_1";
  }

  /** A slug the package manager's tests expect: a `.git` suffix becomes `_git`. */
  lemma SlugGitSuffixExample()
    ensures Slug(NmPackageId("package", "1.git")) == "package_1_git"
  {
    var q := NmPackageId("package", "1.git").QualifiedId();
    assert q == "package\\1.git";
    var safe := SanitizeChars(q);
    assert safe[7] == '_';
    assert safe == "package_1.git";
    assert FixLeadingDash(safe) == safe;
    assert EndsWith(safe, ".git");
    assert safe[..|safe| - 4] == "package_1";
  }

  /** A slug the package manager's tests expect: the package and version ids are
      joined by `_`. */
  lemma SlugPlainExample()
    ensures Slug(NmPackageId("packageId", "1.0.0-a")) == "packageId_1.0.0-a"
  {
    var q := NmPackageId("packageId", "1.0.0-a").QualifiedId();
    assert q == "packageId\\1.0.0-a";
    var safe := SanitizeChars(q);
    assert safe[9] == '_';
    assert safe == "packageId_1.0.0-a";
    assert FixLeadingDash(safe) == safe;
    assert !EndsWith(safe, ".git") && !EndsWith(safe, ".atom");
  }

  /** A slug the package manager's tests expect: spaces become `_`. */
  lemma SlugSpacesExample()
    ensures Slug(NmPackageId("package with spaces", "1 0 0")) == "package_with_spaces_1_0_0"
  {
    var q := NmPackageId("package with spaces", "1 0 0").QualifiedId();
    assert q == "package with spaces\\1 0 0";
    var safe := SanitizeChars(q);
    assert safe[7] == '_' && safe[12] == '_' && safe[19] == '_' && safe[21] == '_' && safe[23] == '_';
    assert safe == "package_with_spaces_1_0_0";
    assert FixLeadingDash(safe) == safe;
    assert !EndsWith(safe, ".git") && !EndsWith(safe, ".atom");
  }

  /** A slug the package manager's tests expect: `+`, `:`, `,` and `%` become `_`. */
  lemma SlugPunctuationExample()
    ensures Slug(NmPackageId("package+b", "version:1,0%a")) == "package_b_version_1_0_a"
  {
    var q := NmPackageId("package+b", "version:1,0%a").QualifiedId();
    assert q == "package+b\\version:1,0%a";
    var safe := SanitizeChars(q);
    assert safe[7] == '_' && safe[9] == '_' && safe[17] == '_' && safe[19] == '_' && safe[21] == '_';
    assert safe == "package_b_version_1_0_a";
    assert FixLeadingDash(safe) == safe;
    assert !EndsWith(safe, ".git") && !EndsWith(safe, ".atom");
  }

  /** A slug the package manager's tests expect: only the first of two leading `-`
      is replaced. */
  lemma SlugDoubleDashExample()
    ensures Slug(NmPackageId("--package", "1")) == "_-package_1"
  {
    var q := NmPackageId("--package", "1").QualifiedId();
    assert q == "--package\\1";
    var safe := SanitizeChars(q);
    assert safe[9] == '_';
    assert safe == "--package_1";
    assert FixLeadingDash(safe) == "_-package_1";
    assert !EndsWith("_-package_1", ".git") && !EndsWith("_-package_1", ".atom");
  }

  /** A slug the package manager's tests expect: an `.atom` suffix becomes `_atom`. */
  lemma SlugAtomSuffixExample()
    ensures Slug(NmPackageId("package", "2.atom")) == "package_2_atom"
  {
    var q := NmPackageId("package", "2.atom").QualifiedId();
    assert q == "package\\2.atom";
    var safe := SanitizeChars(q);
    assert safe[7] == '_';
    assert safe == "package_2.atom";
    assert FixLeadingDash(safe) == safe;
    assert !EndsWith(safe, ".git") && EndsWith(safe, ".atom");
    assert safe[..|safe| - 5] == "package_2";
  }

  /** A slug the package manager's tests expect: other extension-like suffixes stay. */
  lemma SlugOtherSuffixExample()
    ensures Slug(NmPackageId("package", "3.jdv")) == "package_3.jdv"
  {
    var q := NmPackageId("package", "3.jdv").QualifiedId();
    assert q == "package\\3.jdv";
    var safe := SanitizeChars(q);
    assert safe[7] == '_';
    assert safe == "package_3.jdv";
    assert FixLeadingDash(safe) == safe;
    assert !EndsWith(safe, ".git") && !EndsWith(safe, ".atom");
  }
}
