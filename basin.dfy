/**
 * The basin's display name (GRM.__init__) and the Title a new collection records
 * (create_lidar_netcdf). check_basin_match later looks for the display name in that Title.
 */
module Basin {
  import opened Text

  /** The lower-case name before title-casing: two renamed ids, the rest suffixed with " river basin". */
  function RawBasinName(id: string): string {
    if id == "brb" then "boise river basin"
    else if id == "lakes" then "mammoth lakes basin"
    else id + " river basin"
  }

  /** self.basin after __init__: the raw name in title case. */
  function DisplayName(id: string): string {
    TitleCase(RawBasinName(id))
  }

  /** The three shapes of display name, compared case-insensitively. */
  lemma DisplayNameLower(id: string)
    ensures id == "brb" ==> Lower(DisplayName(id)) == "boise river basin"
    ensures id == "lakes" ==> Lower(DisplayName(id)) == "mammoth lakes basin"
    ensures id != "brb" && id != "lakes" ==> Lower(DisplayName(id)) == Lower(id) + " river basin"
  {
    if id == "brb" {
      RenamedLower(id, "boise river basin");
    } else if id == "lakes" {
      RenamedLower(id, "mammoth lakes basin");
    } else {
      SuffixedLower(id);
    }
  }

  lemma RenamedLower(id: string, raw: string)
    requires RawBasinName(id) == raw
    requires forall i :: 0 <= i < |raw| ==> !IsUpper(raw[i])
    ensures Lower(DisplayName(id)) == raw
  {
    LowerOfTitleCase(raw);
    LowerIdentity(raw);
  }

  lemma SuffixedLower(id: string)
    requires id != "brb" && id != "lakes"
    ensures Lower(DisplayName(id)) == Lower(id) + " river basin"
  {
    LowerOfTitleCase(RawBasinName(id));
    assert Lower(" river basin") == " river basin" by {
      LowerIdentity(" river basin");
    }
    LowerDistributes(id, " river basin");
  }

  // The words of the three display names below, each title-cased on its own.
  lemma WordBoise() ensures TitleCase("boise") == "Boise" { TitleCaseLowerWord("boise"); }
  lemma WordRiver() ensures TitleCase("river") == "River" { TitleCaseLowerWord("river"); }
  lemma WordBasin() ensures TitleCase("basin") == "Basin" { TitleCaseLowerWord("basin"); }
  lemma WordMammoth() ensures TitleCase("mammoth") == "Mammoth" { TitleCaseLowerWord("mammoth"); }
  lemma WordLakes() ensures TitleCase("lakes") == "Lakes" { TitleCaseLowerWord("lakes"); }
  lemma WordTuolumne() ensures TitleCase("tuolumne") == "Tuolumne" { TitleCaseLowerWord("tuolumne"); }

  /** The display name of Boise, letter for letter. */
  lemma DisplayNameBoise()
    ensures DisplayName("brb") == "Boise River Basin"
  {
    WordBoise();
    WordRiver();
    WordBasin();
    TitleCaseThreeWords("boise", "river", "basin");
    assert RawBasinName("brb") == "boise" + " " + "river" + " " + "basin";
    assert "Boise" + " " + "River" + " " + "Basin" == "Boise River Basin";
  }

  /** The display name of Mammoth Lakes, letter for letter. */
  lemma DisplayNameLakes()
    ensures DisplayName("lakes") == "Mammoth Lakes Basin"
  {
    WordMammoth();
    WordLakes();
    WordBasin();
    TitleCaseThreeWords("mammoth", "lakes", "basin");
    assert RawBasinName("lakes") == "mammoth" + " " + "lakes" + " " + "basin";
    assert "Mammoth" + " " + "Lakes" + " " + "Basin" == "Mammoth Lakes Basin";
  }

  /** The display name of an id that is not renamed, letter for letter. */
  lemma DisplayNameTuolumne()
    ensures DisplayName("tuolumne") == "Tuolumne River Basin"
  {
    WordTuolumne();
    WordRiver();
    WordBasin();
    TitleCaseThreeWords("tuolumne", "river", "basin");
    assert RawBasinName("tuolumne") == "tuolumne" + " " + "river" + " " + "basin";
    assert "Tuolumne" + " " + "River" + " " + "Basin" == "Tuolumne River Basin";
  }

  /** The Title attribute of a new collection for this basin and water year. */
  function CollectionTitle(basin: string, waterYear: int): string {
    "ASO 50m Lidar Flights Over the " + basin + " for Water Year " + IntToString(waterYear) + "."
  }

  /** A collection's Title names its basin, whatever the case: check_basin_match passes for the basin that created it. */
  lemma TitleNamesBasin(basin: string, waterYear: int)
    ensures Contains(Lower(CollectionTitle(basin, waterYear)), Lower(basin))
  {
    var pre := "ASO 50m Lidar Flights Over the ";
    var post := " for Water Year " + IntToString(waterYear) + ".";
    assert CollectionTitle(basin, waterYear) == pre + basin + post;
    LowerDistributes(pre + basin, post);
    LowerDistributes(pre, basin);
    ContainsMiddle(Lower(pre), Lower(basin), Lower(post));
  }
}
