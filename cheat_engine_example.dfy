/**
 * The three-folder listing `Cheat Engine 7.4`, `Cheat Engine 7.5.1`,
 * `Cheat Engine 6.8`: the version of each folder worked out by hand, and the
 * consequence that the scan picks `Cheat Engine 7.5.1`.
 */
module CheatEngineExample {
  import opened Wrappers
  import opened Paths
  import opened CheatEngine

  lemma Match74()
    ensures VersionMatch("7.4") == "7.4"
  {
    var u := "7.4";
    assert DigitsEnd(u, 3) == 3;
    assert DigitsEnd(u, 2) == 3;
    assert DigitsEnd(u, 1) == 1;
    assert DigitsEnd(u, 0) == 1;
    assert GroupsEnd(u, 3) == 3;
    assert GroupsEnd(u, 1) == 3;
    assert u[..3] == u;
  }

  lemma Match68()
    ensures VersionMatch("6.8") == "6.8"
  {
    var u := "6.8";
    assert DigitsEnd(u, 3) == 3;
    assert DigitsEnd(u, 2) == 3;
    assert DigitsEnd(u, 1) == 1;
    assert DigitsEnd(u, 0) == 1;
    assert GroupsEnd(u, 3) == 3;
    assert GroupsEnd(u, 1) == 3;
    assert u[..3] == u;
  }

  lemma Match751()
    ensures VersionMatch("7.5.1") == "7.5.1"
  {
    var u := "7.5.1";
    assert DigitsEnd(u, 5) == 5;
    assert DigitsEnd(u, 4) == 5;
    assert DigitsEnd(u, 3) == 3;
    assert DigitsEnd(u, 2) == 3;
    assert DigitsEnd(u, 1) == 1;
    assert DigitsEnd(u, 0) == 1;
    assert GroupsEnd(u, 5) == 5;
    assert GroupsEnd(u, 3) == 5;
    assert GroupsEnd(u, 1) == 5;
    assert u[..5] == u;
  }

  /** A one-digit group is worth its digit. */
  lemma SingleDigitValue(g: string)
    requires |g| == 1 && IsDigit(g[0])
    ensures AllDigits(g) && DecimalValue(g) == DigitValue(g[0])
  {
    assert g[..0] == [];
  }

  lemma Components74()
    ensures WellFormedVersion("7.4") && Components("7.4") == [7, 4]
  {
    Match74();
    SplitAround("7", "4", '.');
    assert "7" + ['.'] + "4" == "7.4";
    SplitWithoutSeparator("7", '.');
    SplitWithoutSeparator("4", '.');
    SingleDigitValue("7");
    SingleDigitValue("4");
  }

  lemma Components68()
    ensures WellFormedVersion("6.8") && Components("6.8") == [6, 8]
  {
    Match68();
    SplitAround("6", "8", '.');
    assert "6" + ['.'] + "8" == "6.8";
    SplitWithoutSeparator("6", '.');
    SplitWithoutSeparator("8", '.');
    SingleDigitValue("6");
    SingleDigitValue("8");
  }

  lemma Split751()
    ensures Split("7.5.1", '.') == ["7", "5", "1"]
  {
    SplitAround("5", "1", '.');
    assert "5" + ['.'] + "1" == "5.1";
    SplitAround("7", "5.1", '.');
    assert "7" + ['.'] + "5.1" == "7.5.1";
    SplitWithoutSeparator("7", '.');
    SplitWithoutSeparator("5", '.');
    SplitWithoutSeparator("1", '.');
  }

  lemma WellFormed751()
    ensures WellFormedVersion("7.5.1")
  {
    Match751();
  }

  lemma Components751()
    ensures WellFormedVersion("7.5.1") && Components("7.5.1") == [7, 5, 1]
  {
    WellFormed751();
    Split751();
    SingleDigitValue("7");
    SingleDigitValue("5");
    SingleDigitValue("1");
    var c := Components("7.5.1");
    assert c[0] == 7 && c[1] == 5 && c[2] == 1;
  }

  lemma CandidateOf(folder: string, digits: string, version: seq<nat>)
    requires folder == Anchor + digits
    requires |digits| > 0 && IsDigit(digits[0])
    requires VersionMatch(digits) == digits
    requires WellFormedVersion(digits) && Components(digits) == version
    ensures CandidateVersion(folder) == Some(Padded(version))
  {
    assert folder[..|Anchor|] == Anchor;
    assert folder[..|Prefix|] == Prefix;
    assert MatchesAt(folder, 0);
    assert folder[|Anchor|..] == digits;
  }

  const ExampleListing: seq<string> := ["Cheat Engine 7.4", "Cheat Engine 7.5.1", "Cheat Engine 6.8"]

  lemma ExampleCandidates()
    ensures CandidateVersion(ExampleListing[0]) == Some([7, 4, 0])
    ensures CandidateVersion(ExampleListing[1]) == Some([7, 5, 1])
    ensures CandidateVersion(ExampleListing[2]) == Some([6, 8, 0])
  {
    Candidate74();
    Candidate751();
    Candidate68();
  }

  lemma Candidate74()
    ensures CandidateVersion("Cheat Engine 7.4") == Some([7, 4, 0])
  {
    Components74();
    CandidateOf("Cheat Engine 7.4", "7.4", [7, 4]);
    assert Padded([7, 4]) == [7, 4, 0];
  }

  lemma Candidate751()
    ensures CandidateVersion("Cheat Engine 7.5.1") == Some([7, 5, 1])
  {
    Match751();
    Components751();
    CandidateOf("Cheat Engine 7.5.1", "7.5.1", [7, 5, 1]);
    assert Padded([7, 5, 1]) == [7, 5, 1];
  }

  lemma Candidate68()
    ensures CandidateVersion("Cheat Engine 6.8") == Some([6, 8, 0])
  {
    Components68();
    CandidateOf("Cheat Engine 6.8", "6.8", [6, 8]);
    assert Padded([6, 8]) == [6, 8, 0];
  }

  lemma ExampleVersions()
    ensures |Versions(ExampleListing)| == 3
    ensures Versions(ExampleListing)[0] == Some([7, 4, 0])
    ensures Versions(ExampleListing)[1] == Some([7, 5, 1])
    ensures Versions(ExampleListing)[2] == Some([6, 8, 0])
  {
    ExampleCandidates();
  }

  lemma SecondVersionIsLatest(vs: seq<Option<seq<nat>>>)
    requires |vs| == 3 && vs[0] == Some([7, 4, 0]) && vs[1] == Some([7, 5, 1]) && vs[2] == Some([6, 8, 0])
    ensures LatestWithin(vs, 3, 1)
  {
    assert Less([7, 4, 0], [7, 5, 1]) by {
      var a: seq<int>, b: seq<int> := [7, 4, 0], [7, 5, 1];
      assert a[1..] == [4, 0] && b[1..] == [5, 1];
    }
    assert !Less([7, 5, 1], [7, 4, 0]) by {
      var a: seq<int>, b: seq<int> := [7, 5, 1], [7, 4, 0];
      assert a[1..] == [5, 1] && b[1..] == [4, 0];
    }
    LessIrreflexive([7, 5, 1]);
  }

  lemma ExampleListingPicks751()
    ensures IsLatest(ExampleListing, 1)
  {
    ExampleVersions();
    SecondVersionIsLatest(Versions(ExampleListing));
  }

  lemma ExamplePath()
    ensures JoinPath(BasePath, ExampleListing[1]) == "C:\\Program Files\\Cheat Engine 7.5.1"
  {
    assert BasePath[|BasePath| - 1] == 's';
  }

  /** What callers can conclude from the contract of `FindCEInstallPath` alone. */
  method ExampleScan() {
    var path := FindCEInstallPath(Some(ExampleListing));
    ExampleListingPicks751();
    assert CandidateVersion(ExampleListing[1]).Some?;
    assert path.Some?;
    ghost var k :| IsLatest(ExampleListing, k) && path.value == JoinPath(BasePath, ExampleListing[k]);
    LatestIsUnique(Versions(ExampleListing), |ExampleListing|, k, 1);
    ExamplePath();
    assert path == Some("C:\\Program Files\\Cheat Engine 7.5.1");
    var missing := FindCEInstallPath(None);
    assert missing == None;
  }
}
