/**
 * Locating the most recent Cheat Engine installation: folder names under
 * `C:\Program Files` are matched against `Cheat Engine (\d+(?:\.\d+)*)`, the
 * version is parsed into a list of integers padded to three components, and the
 * folder with the greatest list under Python's list order wins.
 */
module CheatEngine {
  import opened Wrappers
  import opened Paths

  const BasePath: string := "C:\\Program Files"
  /** The `startswith` filter. */
  const Prefix: string := "Cheat Engine"
  /** The literal part of the search pattern, up to the captured version. */
  const Anchor: string := "Cheat Engine "

  /** `\d`, restricted to the ASCII digits. */
  predicate IsDigit(c: char) {
    '0' <= c <= '9'
  }

  predicate AllDigits(s: string) {
    forall i | 0 <= i < |s| :: IsDigit(s[i])
  }

  // ---------------------------------------------------------------------------
  // The regular expression search

  /** The end of the greedy run of digits that starts at `j`. */
  function DigitsEnd(t: string, j: nat): (e: nat)
    requires j <= |t|
    ensures j <= e <= |t|
    ensures AllDigits(t[j..e])
    ensures e == |t| || !IsDigit(t[e])
    decreases |t| - j
  {
    if j < |t| && IsDigit(t[j]) then DigitsEnd(t, j + 1) else j
  }

  /** The end of the greedy repetition of `\.\d+` that starts at `p`. */
  function GroupsEnd(t: string, p: nat): (e: nat)
    requires p <= |t|
    requires p == |t| || !IsDigit(t[p])
    ensures p <= e <= |t|
    ensures e == |t| || !IsDigit(t[e])
    ensures !(e + 1 < |t| && t[e] == '.' && IsDigit(t[e + 1]))
    decreases |t| - p
  {
    if p + 1 < |t| && t[p] == '.' && IsDigit(t[p + 1]) then GroupsEnd(t, DigitsEnd(t, p + 1)) else p
  }

  /** `str.split(sep)`: the (possibly empty) pieces between the separators. */
  function Split(s: string, sep: char): (parts: seq<string>)
    ensures |parts| >= 1
  {
    if s == [] then [[]]
    else
      var rest := Split(s[1..], sep);
      if s[0] == sep then [[]] + rest else [[s[0]] + rest[0]] + rest[1..]
  }

  lemma {:induction false} SplitPiecesLackSeparator(s: string, sep: char)
    ensures forall k | 0 <= k < |Split(s, sep)| :: sep !in Split(s, sep)[k]
    decreases |s|
  {
    if s != [] {
      SplitPiecesLackSeparator(s[1..], sep);
    }
  }

  /** `sep.join(parts)`, the inverse of `Split`. */
  function Join(parts: seq<string>, sep: char): string
    requires |parts| >= 1
  {
    if |parts| == 1 then parts[0] else parts[0] + [sep] + Join(parts[1..], sep)
  }

  lemma {:induction false} JoinSplit(s: string, sep: char)
    ensures Join(Split(s, sep), sep) == s
    decreases |s|
  {
    if s != [] {
      JoinSplit(s[1..], sep);
      var rest := Split(s[1..], sep);
      if s[0] == sep {
        assert Split(s, sep)[1..] == rest;
      } else {
        var parts := Split(s, sep);
        if |rest| == 1 {
          assert parts == [[s[0]] + rest[0]];
        } else {
          assert parts[1..] == rest[1..];
          assert Join(rest, sep) == rest[0] + [sep] + Join(rest[1..], sep);
        }
      }
    }
  }

  lemma {:induction false} SplitAround(x: string, y: string, sep: char)
    ensures Split(x + [sep] + y, sep) == Split(x, sep) + Split(y, sep)
    decreases |x|
  {
    var s := x + [sep] + y;
    if x == [] {
      assert s[1..] == y;
    } else {
      assert s[1..] == x[1..] + [sep] + y;
      SplitAround(x[1..], y, sep);
    }
  }

  lemma {:induction false} SplitWithoutSeparator(x: string, sep: char)
    requires sep !in x
    ensures Split(x, sep) == [x]
    decreases |x|
  {
    if x != [] {
      SplitWithoutSeparator(x[1..], sep);
      assert [x[0]] + x[1..] == x;
    }
  }

  /** The text the pattern can capture: dot-separated, non-empty groups of digits. */
  predicate WellFormedVersion(v: string) {
    forall g | g in Split(v, '.') :: g != [] && AllDigits(g)
  }

  lemma {:induction false} GroupsWellFormed(u: string, p: nat)
    requires 0 < p <= |u| && (p == |u| || !IsDigit(u[p]))
    requires WellFormedVersion(u[..p])
    ensures WellFormedVersion(u[..GroupsEnd(u, p)])
    decreases |u| - p
  {
    if p + 1 < |u| && u[p] == '.' && IsDigit(u[p + 1]) {
      var q := DigitsEnd(u, p + 1);
      var group := u[p + 1..q];
      assert '.' !in group by {
        forall i | 0 <= i < |group| ensures group[i] != '.' {
          assert IsDigit(group[i]);
        }
      }
      SplitWithoutSeparator(group, '.');
      SplitAround(u[..p], group, '.');
      assert u[..q] == u[..p] + ['.'] + group;
      GroupsWellFormed(u, q);
    }
  }

  /**
   * `match.group(1)` once the anchor has matched right before `u`, whose first
   * character is a digit: the greedy match of `\d+(?:\.\d+)*`, a well-formed version
   * that the following text cannot extend.
   */
  function VersionMatch(u: string): (v: string)
    requires |u| > 0 && IsDigit(u[0])
    ensures 0 < |v| <= |u| && v == u[..|v|]
    ensures WellFormedVersion(v)
    ensures |v| == |u| || !IsDigit(u[|v|])
    ensures !(|v| + 1 < |u| && u[|v|] == '.' && IsDigit(u[|v| + 1]))
  {
    var d := DigitsEnd(u, 0);
    assert '.' !in u[..d] by {
      forall i | 0 <= i < d ensures u[..d][i] != '.' {
        assert IsDigit(u[0..d][i]);
      }
    }
    SplitWithoutSeparator(u[..d], '.');
    GroupsWellFormed(u, d);
    u[..GroupsEnd(u, d)]
  }

  /** The anchor occurs at `i` and is followed by a digit: the pattern matches there. */
  predicate MatchesAt(s: string, i: nat) {
    i + |Anchor| < |s| && s[i..i + |Anchor|] == Anchor && IsDigit(s[i + |Anchor|])
  }

  /** The leftmost position from `i` on where the pattern matches, if any. */
  function LeftmostMatch(s: string, i: nat): (k: Option<nat>)
    requires i <= |s|
    ensures k.None? <==> forall j | i <= j <= |s| :: !MatchesAt(s, j)
    ensures k.Some? ==> (i <= k.value < |s| && MatchesAt(s, k.value)
      && forall j | i <= j < k.value :: !MatchesAt(s, j))
    decreases |s| - i
  {
    if MatchesAt(s, i) then Some(i)
    else if i < |s| then LeftmostMatch(s, i + 1)
    else None
  }

  /**
   * `re.search(r"Cheat Engine (\d+(?:\.\d+)*)", s)`, giving group 1: the capture
   * at the leftmost position where the pattern matches.
   */
  function SearchVersion(s: string): (m: Option<string>)
    ensures m.Some? ==> WellFormedVersion(m.value)
  {
    match LeftmostMatch(s, 0)
    case Some(k) => Some(VersionMatch(s[k + |Anchor|..]))
    case None => None
  }

  /** The search yields a capture iff the anchor, followed by a digit, occurs somewhere in the text. */
  lemma SearchFindsAnyMatch(s: string)
    ensures SearchVersion(s).Some? <==> exists k | 0 <= k <= |s| :: MatchesAt(s, k)
  {
    if SearchVersion(s).Some? {
      assert MatchesAt(s, LeftmostMatch(s, 0).value);
    }
  }

  // ---------------------------------------------------------------------------
  // Parsing and padding

  function DigitValue(c: char): (d: nat)
    requires IsDigit(c)
    ensures d < 10
  {
    (c as int) - ('0' as int)
  }

  /**
   * `int(g)` for a string of ASCII digits; leading zeros are allowed. `int("")`
   * raises, but `Components` only passes non-empty groups, so the value 0 given
   * for the empty string is never used.
   */
  function DecimalValue(g: string): nat
    requires AllDigits(g)
  {
    if g == [] then 0 else DecimalValue(g[..|g| - 1]) * 10 + DigitValue(g[|g| - 1])
  }

  lemma {:induction false} LeadingZeroIgnored(g: string)
    requires AllDigits(g)
    ensures AllDigits("0" + g) && DecimalValue("0" + g) == DecimalValue(g)
    decreases |g|
  {
    if g != [] {
      LeadingZeroIgnored(g[..|g| - 1]);
      assert ("0" + g)[..|g|] == "0" + g[..|g| - 1];
    }
  }

  /** `str(n)`: the decimal digits of `n`, without leading zeros. */
  function DecimalString(n: nat): (s: string)
    ensures |s| >= 1 && AllDigits(s)
    ensures |s| > 1 ==> s[0] != '0'
    decreases n
  {
    var last := ('0' as int + n % 10) as char;
    if n < 10 then [last] else DecimalString(n / 10) + [last]
  }

  /** `int(str(n)) == n`: reading back the digits of a number gives the number. */
  lemma {:induction false} DecimalRoundTrip(n: nat)
    ensures DecimalValue(DecimalString(n)) == n
    decreases n
  {
    var s := DecimalString(n);
    if n >= 10 {
      DecimalRoundTrip(n / 10);
      assert s[..|s| - 1] == DecimalString(n / 10);
    } else {
      assert s[..0] == [];
    }
  }

  /** `list(map(int, v.split('.')))`: one integer per group; no group makes `int` fail. */
  function Components(v: string): (c: seq<nat>)
    requires WellFormedVersion(v)
    ensures |c| == |Split(v, '.')|
    ensures forall k | 0 <= k < |c| :: c[k] == DecimalValue(Split(v, '.')[k])
  {
    var groups := Split(v, '.');
    assert forall k | 0 <= k < |groups| :: groups[k] in groups;
    seq(|groups|, k requires 0 <= k < |groups| => DecimalValue(groups[k]))
  }

  /** The version right-padded with zeros to at least three components. */
  function Padded(v: seq<nat>): (p: seq<nat>)
    ensures |p| == if |v| < 3 then 3 else |v|
    ensures p[..|v|] == v
    ensures forall k | |v| <= k < |p| :: p[k] == 0
  {
    if |v| < 3 then v + seq(3 - |v|, _ => 0) else v
  }

  /** `while len(version) < 3: version.append(0)`. */
  method PadVersion(v: seq<nat>) returns (version: seq<nat>)
    ensures version == Padded(v)
  {
    version := v;
    while |version| < 3
      invariant |v| <= |version| && version[..|v|] == v
      invariant |version| <= 3 || version == v
      invariant forall k | |v| <= k < |version| :: version[k] == 0
    {
      version := version + [0];
    }
  }

  // ---------------------------------------------------------------------------
  // Python's order on lists of integers

  /** `a < b` on Python lists: the first difference decides, and a proper prefix is smaller. */
  predicate Less(a: seq<int>, b: seq<int>) {
    if a == [] then b != []
    else if b == [] then false
    else if a[0] != b[0] then a[0] < b[0]
    else Less(a[1..], b[1..])
  }

  lemma {:induction false} LessIrreflexive(a: seq<int>)
    ensures !Less(a, a)
    decreases |a|
  {
    if a != [] {
      LessIrreflexive(a[1..]);
    }
  }

  lemma {:induction false} LessTransitive(a: seq<int>, b: seq<int>, c: seq<int>)
    requires Less(a, b) && Less(b, c)
    ensures Less(a, c)
    decreases |a|
  {
    if a != [] && a[0] == b[0] && b[0] == c[0] {
      LessTransitive(a[1..], b[1..], c[1..]);
    }
  }

  lemma {:induction false} LessTotal(a: seq<int>, b: seq<int>)
    ensures a == b || Less(a, b) || Less(b, a)
    decreases |a|
  {
    if a != [] && b != [] && a[0] == b[0] {
      LessTotal(a[1..], b[1..]);
      if a[1..] == b[1..] {
        assert a == [a[0]] + a[1..] && b == [b[0]] + b[1..];
      }
    }
  }

  lemma LessAsymmetric(a: seq<int>, b: seq<int>)
    requires Less(a, b)
    ensures !Less(b, a)
  {
    if Less(b, a) {
      LessTransitive(a, b, a);
      LessIrreflexive(a);
    }
  }

  // ---------------------------------------------------------------------------
  // Selection

  /**
   * What the loop body makes of one folder: the padded version list when the
   * folder passes the `startswith` filter and the pattern matches, `None` otherwise.
   */
  function CandidateVersion(folder: string): (v: Option<seq<nat>>)
    ensures v.Some? ==> |v.value| >= 3
  {
    if StartsWith(folder, Prefix) then
      match SearchVersion(folder)
      case Some(capture) => Some(Padded(Components(capture)))
      case None => None
    else None
  }

  /** A folder yields a version iff it passes the `startswith` filter and the pattern matches somewhere in it. */
  lemma CandidateIff(folder: string)
    ensures CandidateVersion(folder).Some? <==>
      StartsWith(folder, Prefix) && exists k | 0 <= k <= |folder| :: MatchesAt(folder, k)
  {
    SearchFindsAnyMatch(folder);
  }

  /** The candidate versions of a listing, position by position. */
  ghost function Versions(folders: seq<string>): seq<Option<seq<nat>>> {
    seq(|folders|, j requires 0 <= j < |folders| => CandidateVersion(folders[j]))
  }

  /**
   * Among the first `n` entries, `k` holds a version that no entry exceeds, and
   * every earlier entry holds a strictly smaller one.
   */
  ghost predicate LatestWithin(vs: seq<Option<seq<nat>>>, n: nat, k: int)
    requires n <= |vs|
  {
    && 0 <= k < n
    && vs[k].Some?
    && (forall j | 0 <= j < n && vs[j].Some? :: !Less(vs[k].value, vs[j].value))
    && (forall j | 0 <= j < k && vs[j].Some? :: Less(vs[j].value, vs[k].value))
  }

  /** The earliest folder of the listing with the greatest version. */
  ghost predicate IsLatest(folders: seq<string>, k: int) {
    LatestWithin(Versions(folders), |folders|, k)
  }

  /** At most one entry is the latest (`IsLatest` is `LatestWithin` of the whole listing): ties go to the first. */
  lemma LatestIsUnique(vs: seq<Option<seq<nat>>>, n: nat, k1: int, k2: int)
    requires n <= |vs| && LatestWithin(vs, n, k1) && LatestWithin(vs, n, k2)
    ensures k1 == k2
  {
  }

  lemma BelowRunningMaximum(earlier: seq<int>, latest: seq<int>, version: seq<int>)
    requires !Less(latest, earlier) && Less(latest, version)
    ensures Less(earlier, version) && !Less(version, earlier)
  {
    LessTotal(latest, earlier);
    if earlier != latest {
      LessTransitive(earlier, latest, version);
    }
    LessAsymmetric(earlier, version);
  }

  /** An entry that beats the running maximum, or the first entry with a version, becomes the latest. */
  lemma LatestMovesTo(vs: seq<Option<seq<nat>>>, i: nat, best: int)
    requires i < |vs| && vs[i].Some?
    requires best == -1 ==> forall j | 0 <= j < i :: vs[j].None?
    requires best != -1 ==> LatestWithin(vs, i, best) && Less(vs[best].value, vs[i].value)
    ensures LatestWithin(vs, i + 1, i)
  {
    LessIrreflexive(vs[i].value);
    if best != -1 {
      forall j | 0 <= j < i && vs[j].Some?
        ensures Less(vs[j].value, vs[i].value) && !Less(vs[i].value, vs[j].value)
      {
        BelowRunningMaximum(vs[j].value, vs[best].value, vs[i].value);
      }
    }
  }

  /** An entry without a version, or whose version does not beat the maximum, changes nothing. */
  lemma LatestStays(vs: seq<Option<seq<nat>>>, i: nat, best: int)
    requires i < |vs| && LatestWithin(vs, i, best)
    requires vs[i].Some? ==> !Less(vs[best].value, vs[i].value)
    ensures LatestWithin(vs, i + 1, best)
  {
  }

  /**
   * `findCEInstallPath`, with `os.listdir(base_path)` passed in as `listing`
   * (`None` when the base path does not exist).
   */
  method FindCEInstallPath(listing: Option<seq<string>>) returns (path: Option<string>)
    ensures listing.None? ==> path.None?
    ensures listing.Some? ==> (path.None? <==> forall j | 0 <= j < |listing.value| :: CandidateVersion(listing.value[j]).None?)
    ensures path.Some? ==> listing.Some? && exists k ::
      IsLatest(listing.value, k) && path.value == JoinPath(BasePath, listing.value[k])
  {
    path := None;
    if listing.None? {
      return;
    }
    var folders := listing.value;
    ghost var vs := Versions(folders);
    assert forall j | 0 <= j < |folders| :: vs[j] == CandidateVersion(folders[j]);
    var latestVersion: seq<nat> := [];
    ghost var best: int := -1;
    for i := 0 to |folders|
      invariant -1 <= best < i
      invariant best == -1 ==> path.None? && latestVersion == [] && forall j | 0 <= j < i :: vs[j].None?
      invariant best != -1 ==> (LatestWithin(vs, i, best)
        && latestVersion == vs[best].value
        && path == Some(JoinPath(BasePath, folders[best])))
    {
      var folder := folders[i];
      if StartsWith(folder, Prefix) {
        var found := SearchVersion(folder);
        if found.Some? {
          var version := Components(found.value);
          version := PadVersion(version);
          assert vs[i] == Some(version);
          if Less(latestVersion, version) {
            LatestMovesTo(vs, i, best);
            latestVersion := version;
            path := Some(JoinPath(BasePath, folder));
            best := i;
          } else {
            LatestStays(vs, i, best);
          }
        } else if best != -1 {
          LatestStays(vs, i, best);
        }
      } else if best != -1 {
        LatestStays(vs, i, best);
      }
    }
    if best != -1 {
      assert IsLatest(folders, best);
    }
  }
}
