/** seasonExists of examples/search/find_season.go: parse the wanted season
    number with strconv.Atoi and look for a season entry with that index. */
module FindSeason {
  import opened Results
  import GoStrconv

  /** The fields of a child metadata entry that the check reads. */
  datatype Metadata = Metadata(title: string, mediaType: string, index: int)

  /** Some season entry has index n. */
  predicate HasSeason(n: int, seasons: seq<Metadata>) {
    exists i :: 0 <= i < |seasons| && seasons[i].mediaType == "season" && seasons[i].index == n
  }

  /** seasonExists: false when the target does not parse or is below 1;
      otherwise a scan that skips non-season entries and returns at the
      first season with the wanted index. */
  method SeasonExists(targetSeason: string, seasons: seq<Metadata>) returns (b: bool)
    ensures b <==> GoStrconv.Atoi(targetSeason).Some? && GoStrconv.Atoi(targetSeason).value >= 1
                   && HasSeason(GoStrconv.Atoi(targetSeason).value, seasons)
  {
    var parsed := GoStrconv.Atoi(targetSeason);
    if parsed.None? || parsed.value < 1 {
      return false;
    }
    var targetSeasonInt := parsed.value;
    for k := 0 to |seasons|
      invariant !HasSeason(targetSeasonInt, seasons[..k])
    {
      var season := seasons[k];
      if season.mediaType != "season" {
        assert !HasSeason(targetSeasonInt, seasons[..k + 1]) by {
          assert seasons[..k + 1] == seasons[..k] + [season];
        }
        continue;
      }
      if season.index == targetSeasonInt {
        return true;
      }
      assert !HasSeason(targetSeasonInt, seasons[..k + 1]) by {
        assert seasons[..k + 1] == seasons[..k] + [season];
      }
    }
    assert seasons[..|seasons|] == seasons;
    return false;
  }

  /** Entries that are not seasons never change the answer, and an empty
      list has no season. */
  lemma NonSeasonsIgnored(n: int, before: seq<Metadata>, other: Metadata, after: seq<Metadata>)
    requires other.mediaType != "season"
    ensures HasSeason(n, before + [other] + after) <==> HasSeason(n, before + after)
    ensures !HasSeason(n, [])
  {
    var with := before + [other] + after;
    var without := before + after;
    if HasSeason(n, with) {
      var i :| 0 <= i < |with| && with[i].mediaType == "season" && with[i].index == n;
      if i < |before| {
        assert without[i] == with[i];
      } else {
        assert without[i - 1] == with[i];
      }
    }
    if HasSeason(n, without) {
      var i :| 0 <= i < |without| && without[i].mediaType == "season" && without[i].index == n;
      if i < |before| {
        assert with[i] == without[i];
      } else {
        assert with[i + 1] == without[i];
      }
    }
  }
}
