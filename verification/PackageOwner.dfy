/**
 Attributing a CVE to the package that owns a NEVRA string: the longest known
 name that is followed by a dash at the start of the string.
 */
module PackageOwner {
  import opened Common

  /** `name` is a known package whose name and a dash start the NEVRA. */
  predicate Matches(nevra: string, known: set<string>, name: string) {
    name in known && name + "-" <= nevra
  }

  /** The reference: cut the NEVRA at each dash from the right, down to length `n` or less. */
  function OwnerUpTo(nevra: string, known: set<string>, n: nat): (r: string)
    requires n <= |nevra|
  {
    if n == 0 then ""
    else if n < |nevra| && nevra[n] == '-' && nevra[..n] in known then nevra[..n]
    else OwnerUpTo(nevra, known, n - 1)
  }

  function Owner(nevra: string, known: set<string>): (r: string) {
    OwnerUpTo(nevra, known, |nevra|)
  }

  lemma MatchIsCut(nevra: string, known: set<string>, name: string)
    ensures Matches(nevra, known, name) <==>
            name in known && |name| < |nevra| && nevra[|name|] == '-' && nevra[..|name|] == name
  {
    if |name| < |nevra| {
      assert nevra[..|name| + 1] == nevra[..|name|] + [nevra[|name|]];
      assert (name + "-")[..|name|] == name;
    }
  }

  /** The reference finds the longest match of length at most `n`, or nothing when there is none. */
  lemma {:induction false} OwnerIsLongest(nevra: string, known: set<string>, n: nat)
    requires n <= |nevra|
    ensures var o := OwnerUpTo(nevra, known, n);
      && (o != "" ==> Matches(nevra, known, o) && |o| <= n)
      && forall name :: Matches(nevra, known, name) && |name| <= n ==> |name| <= |o|
  {
    if n == 0 {
    } else {
      OwnerIsLongest(nevra, known, n - 1);
      MatchIsCut(nevra, known, nevra[..n]);
      forall name | Matches(nevra, known, name) && |name| <= n
        ensures |name| <= |OwnerUpTo(nevra, known, n)|
      {
        MatchIsCut(nevra, known, name);
      }
    }
  }

  lemma LongestIsOwner(nevra: string, known: set<string>, best: string)
    requires best != "" ==> Matches(nevra, known, best)
    requires forall name :: Matches(nevra, known, name) ==> |name| <= |best|
    ensures best == Owner(nevra, known)
  {
    OwnerIsLongest(nevra, known, |nevra|);
    var o := Owner(nevra, known);
    MatchIsCut(nevra, known, o);
    MatchIsCut(nevra, known, best);
  }

  /** The map walk keeps the longest match so far; every order of the walk ends at the same name. */
  method BestOwner(nevra: string, known: set<string>) returns (best: string)
    ensures best == Owner(nevra, known)
  {
    best := "";
    var left := known;
    while left != {}
      invariant left <= known
      invariant best != "" ==> Matches(nevra, known, best)
      invariant forall name :: Matches(nevra, known, name) && name !in left ==> |name| <= |best|
      decreases left
    {
      var name :| name in left;
      if name + "-" <= nevra && |name| > |best| {
        best := name;
      }
      left := left - {name};
    }
    LongestIsOwner(nevra, known, best);
  }

  predicate NoDash(s: string) { forall i :: 0 <= i < |s| ==> s[i] != '-' }

  lemma {:induction false} SkipsDashless(nevra: string, known: set<string>, from: nat, to: nat)
    requires to <= from <= |nevra|
    requires forall i :: to < i <= from && i < |nevra| ==> nevra[i] != '-'
    ensures OwnerUpTo(nevra, known, from) == OwnerUpTo(nevra, known, to)
  {
    if to == from {
    } else {
      SkipsDashless(nevra, known, from - 1, to);
    }
  }

  function Nevra(name: string, version: string, release: string): (r: string) {
    name + "-" + version + "-" + release
  }

  lemma NevraParts(name: string, version: string, release: string)
    requires NoDash(version) && NoDash(release)
    ensures var s, n, v := Nevra(name, version, release), |name|, |name| + 1 + |version|;
      && |s| == v + 1 + |release| && s[..n] == name && s[n] == '-' && s[..v] == name + "-" + version && s[v] == '-'
      && (forall i :: n < i < v ==> s[i] != '-')
      && (forall i :: v < i < |s| ==> s[i] != '-')
  {
    var s, n, v := Nevra(name, version, release), |name|, |name| + 1 + |version|;
    assert s[..v] == name + "-" + version;
    forall i | n < i < v
      ensures s[i] != '-'
    {
      assert s[i] == version[i - n - 1];
    }
    forall i | v < i < |s|
      ensures s[i] != '-'
    {
      assert s[i] == release[i - v - 1];
    }
  }

  /**
   For a NEVRA name-version-release, however many other known names start it:
   the CVE goes to `name` exactly when `name` is known and `name-version` is
   not.
   */
  lemma AttributedExactlyWhen(name: string, version: string, release: string, known: set<string>)
    requires name != "" && NoDash(version) && NoDash(release)
    ensures Owner(Nevra(name, version, release), known) == name <==>
            name in known && name + "-" + version !in known
  {
    var s, n, v := Nevra(name, version, release), |name|, |name| + 1 + |version|;
    NevraParts(name, version, release);
    SkipsDashless(s, known, |s|, v);
    if s[..v] !in known {
      SkipsDashless(s, known, v - 1, n);
      OwnerIsLongest(s, known, n - 1);
    }
  }

  // --------------------------------------------------------- whole listings

  datatype CveRef = CveRef(cveId: string, severity: string)

  function Severity(word: string): (r: Option<string>) {
    if word == "Critical" then Some("CRITICAL")
    else if word == "Important" then Some("HIGH")
    else if word == "Moderate" then Some("MEDIUM")
    else if word == "Low" then Some("LOW")
    else None
  }

  function CutSuffix(s: string, suffix: string): (r: Option<string>) {
    if |suffix| <= |s| && s[|s| - |suffix|..] == suffix then Some(s[..|s| - |suffix|]) else None
  }

  /** The reference a listing line carries: a CVE id with a known severity word. */
  function RefOf(fields: seq<string>): (r: Option<CveRef>) {
    if |fields| < 3 || !("CVE-" <= fields[0]) then None else
    match CutSuffix(fields[1], "/Sec.")
    case None => None
    case Some(word) => (match Severity(word) case None => None case Some(sev) => Some(CveRef(fields[0], sev)))
  }

  const WORDS: seq<string> := ["Low", "Moderate", "Important", "Critical"]
  const GRADES: seq<string> := ["LOW", "MEDIUM", "HIGH", "CRITICAL"]

  /** The four words map to the four grades in their order, and no other word maps to any. */
  lemma SeverityKeepsRank(i: nat)
    requires i < 4
    ensures Severity(WORDS[i]) == Some(GRADES[i])
    ensures forall word :: Severity(word).Some? ==> word in WORDS
  {
    assert WORDS[0] == "Low" && WORDS[1] == "Moderate" && WORDS[2] == "Important" && WORDS[3] == "Critical";
    forall word | Severity(word).Some?
      ensures word in WORDS
    {}
  }

  /** A line counts exactly when it has a CVE id first and a known severity word marked `/Sec.` second. */
  lemma RefExactlyWhen(fields: seq<string>, ref: CveRef)
    ensures RefOf(fields) == Some(ref) <==>
            && |fields| >= 3 && "CVE-" <= fields[0] && ref.cveId == fields[0]
            && exists word :: fields[1] == word + "/Sec." && Severity(word) == Some(ref.severity)
  {
    if |fields| >= 3 {
      var s, suffix := fields[1], "/Sec.";
      if word :| s == word + suffix && Severity(word) == Some(ref.severity) {
        assert s[|s| - |suffix|..] == suffix && s[..|s| - |suffix|] == word;
      }
      if CutSuffix(s, suffix).Some? {
        assert s == CutSuffix(s, suffix).value + suffix;
      }
    }
  }

  /** The references of one package, in the order of the lines. */
  function RefsFor(lines: seq<seq<string>>, known: set<string>, name: string): (result: seq<CveRef>) {
    if lines == [] then [] else
    var rest := RefsFor(lines[..|lines| - 1], known, name);
    var fields := lines[|lines| - 1];
    var r := RefOf(fields);
    if r.Some? && Owner(fields[|fields| - 1], known) == name then rest + [r.value] else rest
  }

  /** The references of a package are collected line by line: each line gives its own, or none. */
  lemma {:induction false} RefsSplit(xs: seq<seq<string>>, ys: seq<seq<string>>, known: set<string>, name: string)
    ensures RefsFor(xs + ys, known, name) == RefsFor(xs, known, name) + RefsFor(ys, known, name)
  {
    if ys == [] {
      assert xs + ys == xs;
    } else {
      var n := |ys| - 1;
      RefsSplit(xs, ys[..n], known, name);
      RefsUnfold(xs + ys, known, name);
      RefsUnfold(ys, known, name);
      assert (xs + ys)[..|xs| + n] == xs + ys[..n];
    }
  }

  lemma RefsUnfold(lines: seq<seq<string>>, known: set<string>, name: string)
    requires lines != []
    ensures var fields := lines[|lines| - 1];
      RefsFor(lines, known, name) == RefsFor(lines[..|lines| - 1], known, name)
        + (if RefOf(fields).Some? && Owner(fields[|fields| - 1], known) == name then [RefOf(fields).value] else [])
  {}

  lemma RefsOfLine(fields: seq<string>, known: set<string>, name: string)
    ensures RefsFor([fields], known, name) ==
            (if RefOf(fields).Some? && Owner(fields[|fields| - 1], known) == name then [RefOf(fields).value] else [])
  {
    assert [fields][..0] == [];
  }

  /** The listing, split into fields, gives every package its own references and nothing else. */
  method ParseDnfCves(lines: seq<seq<string>>, known: set<string>) returns (result: map<string, seq<CveRef>>)
    ensures "" !in result
    ensures forall name :: name in result ==> result[name] == RefsFor(lines, known, name)
    ensures forall name :: name != "" && RefsFor(lines, known, name) != [] ==> name in result
  {
    result := map[];
    for i := 0 to |lines|
      invariant "" !in result
      invariant forall name :: name in result ==> result[name] == RefsFor(lines[..i], known, name)
      invariant forall name :: name != "" && name !in result ==> RefsFor(lines[..i], known, name) == []
    {
      assert lines[..i + 1][..i] == lines[..i];
      var fields := lines[i];
      var r := RefOf(fields);
      if r.None? {
        continue;
      }
      var best := BestOwner(fields[|fields| - 1], known);
      if best != "" {
        var sofar := if best in result then result[best] else [];
        result := result[best := sofar + [r.value]];
      }
    }
    assert lines[..|lines|] == lines;
  }
}
