/** The default paper size for a locale: the country code after the last '_' of
    the locale string, upper-cased, looked up in a per-country table, 'a4' when
    there is no locale, no '_' or no entry. The locale string is a parameter
    here; reading it from the system is not part of this model. */
module Paper {
  import opened Results

  const A4: string := "a4"
  const LETTER: string := "letter"
  const JIS_B5: string := "JIS B5"

  // The country table, in the order of the source, in blocks of at most 29
  // entries. No country appears in two blocks, so the order in which they are
  // merged does not change the table.

  // North America (3 entries)
  const NORTH_AMERICA: map<string, string> := map[
    "US" := "letter", "CA" := "letter", "MX" := "letter"
  ]

  // Central America and the Caribbean (21 entries)
  const CENTRAL_AMERICA: map<string, string> := map[
    "AG" := "letter", "BS" := "letter", "BB" := "letter", "BZ" := "letter", "CR" := "letter", "CU" := "letter",
    "DM" := "letter", "DO" := "letter", "GD" := "letter", "GT" := "letter", "HT" := "letter", "HN" := "letter",
    "JM" := "letter", "KN" := "letter", "LC" := "letter", "NI" := "letter", "PA" := "letter", "PR" := "letter",
    "SV" := "letter", "TT" := "letter", "VC" := "letter"
  ]

  // South America (12 entries)
  const SOUTH_AMERICA: map<string, string> := map[
    "AR" := "a4", "BO" := "a4", "BR" := "a4", "CL" := "a4", "CO" := "a4", "EC" := "a4",
    "GY" := "a4", "PY" := "a4", "PE" := "a4", "SR" := "a4", "UY" := "a4", "VE" := "a4"
  ]

  // Europe, first part (24 entries)
  const EUROPE_1: map<string, string> := map[
    "AL" := "a4", "AD" := "a4", "AT" := "a4", "BY" := "a4", "BE" := "a4", "BA" := "a4",
    "BG" := "a4", "HR" := "a4", "CY" := "a4", "CZ" := "a4", "DK" := "a4", "EE" := "a4",
    "FI" := "a4", "FR" := "a4", "DE" := "a4", "GR" := "a4", "HU" := "a4", "IS" := "a4",
    "IE" := "a4", "IT" := "a4", "LV" := "a4", "LI" := "a4", "LT" := "a4", "LU" := "a4"
  ]

  // Europe, second part (21 entries)
  const EUROPE_2: map<string, string> := map[
    "MT" := "a4", "MD" := "a4", "MC" := "a4", "ME" := "a4", "NL" := "a4", "MK" := "a4",
    "NO" := "a4", "PL" := "a4", "PT" := "a4", "RO" := "a4", "RU" := "a4", "SM" := "a4",
    "RS" := "a4", "SK" := "a4", "SI" := "a4", "ES" := "a4", "SE" := "a4", "CH" := "a4",
    "UA" := "a4", "GB" := "a4", "VA" := "a4"
  ]

  // Asia, first part (24 entries)
  const ASIA_1: map<string, string> := map[
    "AF" := "a4", "AM" := "a4", "AZ" := "a4", "BH" := "a4", "BD" := "a4", "BT" := "a4",
    "BN" := "a4", "KH" := "a4", "CN" := "a4", "GE" := "a4", "IN" := "a4", "ID" := "a4",
    "IR" := "a4", "IQ" := "a4", "IL" := "a4", "JO" := "a4", "KZ" := "a4", "KW" := "a4",
    "KG" := "a4", "LA" := "a4", "LB" := "a4", "MY" := "a4", "MV" := "a4", "MN" := "a4"
  ]

  // Asia, second part, with Japan and the Philippines (20 entries)
  const ASIA_2: map<string, string> := map[
    "MM" := "a4", "NP" := "a4", "OM" := "a4", "PK" := "a4", "QA" := "a4", "SA" := "a4",
    "SG" := "a4", "KR" := "a4", "LK" := "a4", "SY" := "a4", "TW" := "a4", "TJ" := "a4",
    "TH" := "a4", "TR" := "a4", "TM" := "a4", "AE" := "a4", "UZ" := "a4", "VN" := "a4",
    "JP" := "JIS B5", "PH" := "letter"
  ]

  // Africa, first part (24 entries)
  const AFRICA_1: map<string, string> := map[
    "DZ" := "a4", "AO" := "a4", "BJ" := "a4", "BW" := "a4", "BF" := "a4", "BI" := "a4",
    "CM" := "a4", "CV" := "a4", "CF" := "a4", "TD" := "a4", "KM" := "a4", "CG" := "a4",
    "CD" := "a4", "DJ" := "a4", "EG" := "a4", "GQ" := "a4", "ER" := "a4", "SZ" := "a4",
    "ET" := "a4", "GA" := "a4", "GM" := "a4", "GH" := "a4", "GN" := "a4", "GW" := "a4"
  ]

  // Africa, second part (29 entries)
  const AFRICA_2: map<string, string> := map[
    "KE" := "a4", "LS" := "a4", "LR" := "a4", "LY" := "a4", "MG" := "a4", "MW" := "a4",
    "ML" := "a4", "MR" := "a4", "MU" := "a4", "MA" := "a4", "MZ" := "a4", "NA" := "a4",
    "NE" := "a4", "NG" := "a4", "RW" := "a4", "ST" := "a4", "SN" := "a4", "SC" := "a4",
    "SL" := "a4", "SO" := "a4", "ZA" := "a4", "SS" := "a4", "SD" := "a4", "TZ" := "a4",
    "TG" := "a4", "TN" := "a4", "UG" := "a4", "ZM" := "a4", "ZW" := "a4"
  ]

  // Oceania (11 entries)
  const OCEANIA: map<string, string> := map[
    "AU" := "a4", "NZ" := "a4", "FJ" := "a4", "PG" := "a4", "SB" := "a4", "VU" := "a4",
    "WS" := "a4", "TO" := "a4", "KI" := "a4", "NR" := "a4", "TV" := "a4"
  ]

  /** The blocks whose entries are all a4. */
  const A4_REGIONS: map<string, string> :=
    SOUTH_AMERICA + EUROPE_1 + EUROPE_2 + ASIA_1 + AFRICA_1 + AFRICA_2 + OCEANIA

  /** Country code to paper size; the blocks holding letter and JIS B5 entries
      are merged last. */
  const CountryPaperSizes: map<string, string> :=
    A4_REGIONS + ASIA_2 + CENTRAL_AMERICA + NORTH_AMERICA

  /** Python's str.split(sep): the pieces between the occurrences of sep, empty
      pieces included, so never an empty list. */
  function Split(s: string, sep: char): (parts: seq<string>)
    ensures |parts| >= 1
    ensures forall i | 0 <= i < |parts| :: sep !in parts[i] && |parts[i]| <= |s|
    decreases |s|
  {
    if |s| == 0 then [""]
    else
      var rest := Split(s[1..], sep);
      if s[0] == sep then [""] + rest else [[s[0]] + rest[0]] + rest[1..]
  }

  /** sep.join(parts). */
  function Join(parts: seq<string>, sep: char): string
    requires |parts| >= 1
    decreases |parts|
  {
    if |parts| == 1 then parts[0] else parts[0] + [sep] + Join(parts[1..], sep)
  }

  /** str.upper() on ASCII letters; every other character is kept. */
  function UpperChar(c: char): (r: char)
    ensures 'a' <= c <= 'z' ==> 'A' <= r <= 'Z' && r as int - c as int == 'A' as int - 'a' as int
    ensures !('a' <= c <= 'z') ==> r == c
  {
    if 'a' <= c <= 'z' then (c as int - 32) as char else c
  }

  function Upper(s: string): (r: string)
    ensures |r| == |s|
    ensures forall i | 0 <= i < |s| :: r[i] == UpperChar(s[i])
    decreases |s|
  {
    if |s| == 0 then "" else [UpperChar(s[0])] + Upper(s[1..])
  }

  /** loc.split('_')[-1].upper() */
  function CountryCode(loc: string): (code: string)
    ensures '_' !in code && |code| <= |loc|
  {
    var parts := Split(loc, '_');
    var last := parts[|parts| - 1];
    assert forall i | 0 <= i < |last| :: last[i] != '_';
    Upper(last)
  }

  /** get_paper_size, with the table it looks the country code up in. */
  function PaperSizeIn(table: map<string, string>, loc: Option<string>): (size: string)
    ensures loc.None? || '_' !in loc.value ==> size == A4
    ensures size == A4 || size in table.Values
  {
    if loc.None? || |loc.value| == 0 || '_' !in loc.value then A4
    else
      var code := CountryCode(loc.value);
      if code in table then table[code] else A4
  }

  /** get_paper_size, given what the locale lookup returned. */
  function PaperSize(loc: Option<string>): (size: string)
    ensures IsPaperSize(size)
  {
    TableSizes();
    RangeIn(CountryPaperSizes, loc);
    PaperSizeIn(CountryPaperSizes, loc)
  }

  // ---- split and join ----

  /** Splitting at one separator splits each side independently. */
  lemma {:induction false} SplitAround(a: string, sep: char, b: string)
    ensures Split(a + [sep] + b, sep) == Split(a, sep) + Split(b, sep)
    decreases |a|
  {
    var s := a + [sep] + b;
    if |a| == 0 {
      assert s[0] == sep && s[1..] == b;
    } else {
      assert s[0] == a[0] && s[1..] == a[1..] + [sep] + b;
      SplitAround(a[1..], sep, b);
      var left, right := Split(a[1..], sep), Split(b, sep);
      if a[0] != sep {
        ReplaceHead([a[0]] + left[0], left, right);
      } else {
        assert [""] + (left + right) == ([""] + left) + right;
      }
    }
  }

  /** Replacing the first piece of `left + right` only touches `left`. */
  lemma ReplaceHead(x: string, left: seq<string>, right: seq<string>)
    requires |left| >= 1
    ensures (left + right)[0] == left[0]
    ensures [x] + (left + right)[1..] == ([x] + left[1..]) + right
  {
    assert (left + right)[1..] == left[1..] + right;
  }

  /** A string without the separator is one piece. */
  lemma {:induction false} SplitNoSeparator(s: string, sep: char)
    requires sep !in s
    ensures Split(s, sep) == [s]
    decreases |s|
  {
    if |s| > 0 {
      assert sep !in s[1..];
      SplitNoSeparator(s[1..], sep);
      assert [s[0]] + s[1..] == s;
    }
  }

  /** Joining the pieces gives the string back. */
  lemma {:induction false} JoinSplit(s: string, sep: char)
    ensures Join(Split(s, sep), sep) == s
    decreases |s|
  {
    if |s| > 0 {
      var rest := Split(s[1..], sep);
      JoinSplit(s[1..], sep);
      if s[0] == sep {
        assert Split(s, sep) == [""] + rest;
        assert ([""] + rest)[1..] == rest;
        assert s == [sep] + s[1..];
      } else {
        var parts := [[s[0]] + rest[0]] + rest[1..];
        assert Split(s, sep) == parts;
        if |rest| == 1 {
          assert s == [s[0]] + s[1..];
        } else {
          assert parts[1..] == rest[1..];
          assert Join(rest, sep) == rest[0] + [sep] + Join(rest[1..], sep);
          assert s == [s[0]] + s[1..];
        }
      }
    }
  }

  /** Splitting pieces joined with the separator, none holding it, gives the
      pieces back. */
  lemma {:induction false} SplitJoin(parts: seq<string>, sep: char)
    requires |parts| >= 1
    requires forall i | 0 <= i < |parts| :: sep !in parts[i]
    ensures Split(Join(parts, sep), sep) == parts
    decreases |parts|
  {
    SplitNoSeparator(parts[0], sep);
    if |parts| > 1 {
      SplitJoin(parts[1..], sep);
      SplitAround(parts[0], sep, Join(parts[1..], sep));
      assert [parts[0]] + parts[1..] == parts;
    }
  }

  /** The country code is the upper-cased text after the last '_'. */
  lemma CountryCodeOf(prefix: string, country: string)
    requires '_' !in country
    ensures CountryCode(prefix + "_" + country) == Upper(country)
  {
    SplitAround(prefix, '_', country);
    SplitNoSeparator(country, '_');
  }

  // ---- the table ----

  predicate AllSized(m: map<string, string>, size: string) {
    forall k | k in m :: m[k] == size
  }

  lemma MergeRight(a: map<string, string>, b: map<string, string>, k: string)
    requires k in b
    ensures k in a + b && (a + b)[k] == b[k]
  {
  }

  lemma MergeLeft(a: map<string, string>, b: map<string, string>, k: string)
    requires k in a && k !in b
    ensures k in a + b && (a + b)[k] == a[k]
  {
  }

  lemma MergeSized(a: map<string, string>, b: map<string, string>, size: string)
    requires AllSized(a, size) && AllSized(b, size)
    ensures AllSized(a + b, size)
  {
  }

  lemma SouthAmericaA4() ensures AllSized(SOUTH_AMERICA, A4) {}
  lemma EuropeOneA4() ensures AllSized(EUROPE_1, A4) {}
  lemma EuropeTwoA4() ensures AllSized(EUROPE_2, A4) {}
  lemma AsiaOneA4() ensures AllSized(ASIA_1, A4) {}
  lemma AfricaOneA4() ensures AllSized(AFRICA_1, A4) {}
  lemma AfricaTwoA4() ensures AllSized(AFRICA_2, A4) {}
  lemma OceaniaA4() ensures AllSized(OCEANIA, A4) {}
  lemma AmericasLetter() ensures AllSized(NORTH_AMERICA, LETTER) && AllSized(CENTRAL_AMERICA, LETTER) {}

  /** Japan is the one JIS B5 country and the Philippines the one letter country
      of the second Asian block. */
  lemma AsiaTwoSizes()
    ensures "JP" in ASIA_2 && "PH" in ASIA_2
    ensures forall k | k in ASIA_2 ::
      ASIA_2[k] == (if k == "JP" then JIS_B5 else if k == "PH" then LETTER else A4)
  {
  }

  lemma AsiaTwoSized()
    ensures forall k | k in ASIA_2 :: IsPaperSize(ASIA_2[k])
  {
    AsiaTwoSizes();
  }

  lemma A4RegionsA4()
    ensures AllSized(A4_REGIONS, A4)
  {
    SouthAmericaA4(); EuropeOneA4(); EuropeTwoA4(); AsiaOneA4();
    AfricaOneA4(); AfricaTwoA4(); OceaniaA4();
    MergeSized(SOUTH_AMERICA, EUROPE_1, A4);
    MergeSized(SOUTH_AMERICA + EUROPE_1, EUROPE_2, A4);
    MergeSized(SOUTH_AMERICA + EUROPE_1 + EUROPE_2, ASIA_1, A4);
    MergeSized(SOUTH_AMERICA + EUROPE_1 + EUROPE_2 + ASIA_1, AFRICA_1, A4);
    MergeSized(SOUTH_AMERICA + EUROPE_1 + EUROPE_2 + ASIA_1 + AFRICA_1, AFRICA_2, A4);
    MergeSized(SOUTH_AMERICA + EUROPE_1 + EUROPE_2 + ASIA_1 + AFRICA_1 + AFRICA_2, OCEANIA, A4);
  }

  // Every entry of the table: letter for North and Central America and the
  // Philippines, JIS B5 for Japan, a4 for every other listed country.

  /** A key of one of the two blocks merged last is found there, for any tables. */
  lemma LastTwoSized(others: map<string, string>, central: map<string, string>,
                     north: map<string, string>, size: string, k: string)
    requires AllSized(central, size) && AllSized(north, size)
    requires k in north || k in central
    ensures k in others + central + north && (others + central + north)[k] == size
  {
    if k in north {
      MergeRight(others + central, north, k);
    } else {
      MergeRight(others, central, k);
      MergeLeft(others + central, north, k);
    }
  }

  lemma AmericasEntry(k: string)
    requires k in NORTH_AMERICA || k in CENTRAL_AMERICA
    ensures k in CountryPaperSizes && CountryPaperSizes[k] == LETTER
  {
    AmericasLetter();
    LastTwoSized(A4_REGIONS + ASIA_2, CENTRAL_AMERICA, NORTH_AMERICA, LETTER, k);
  }

  lemma AsiaTwoEntry(k: string)
    requires k !in NORTH_AMERICA && k !in CENTRAL_AMERICA && k in ASIA_2
    ensures k in CountryPaperSizes
    ensures CountryPaperSizes[k] == if k == "JP" then JIS_B5 else if k == "PH" then LETTER else A4
  {
    AsiaTwoSizes();
    MergeRight(A4_REGIONS, ASIA_2, k);
    MergeLeft(A4_REGIONS + ASIA_2, CENTRAL_AMERICA, k);
    MergeLeft(A4_REGIONS + ASIA_2 + CENTRAL_AMERICA, NORTH_AMERICA, k);
  }

  lemma ElsewhereEntry(k: string)
    requires k in CountryPaperSizes && k !in NORTH_AMERICA && k !in CENTRAL_AMERICA && k !in ASIA_2
    ensures CountryPaperSizes[k] == A4
  {
    A4RegionsA4();
    MergeLeft(A4_REGIONS, ASIA_2, k);
    MergeLeft(A4_REGIONS + ASIA_2, CENTRAL_AMERICA, k);
    MergeLeft(A4_REGIONS + ASIA_2 + CENTRAL_AMERICA, NORTH_AMERICA, k);
  }

  predicate IsPaperSize(s: string) {
    s == A4 || s == LETTER || s == JIS_B5
  }

  lemma MergedSizes(others: map<string, string>, asia: map<string, string>,
                    central: map<string, string>, north: map<string, string>)
    requires AllSized(others, A4) && AllSized(central, LETTER) && AllSized(north, LETTER)
    requires forall k | k in asia :: IsPaperSize(asia[k])
    ensures forall k | k in others + asia + central + north :: IsPaperSize((others + asia + central + north)[k])
  {
  }

  /** The table holds only the three sizes. */
  lemma TableSizes()
    ensures forall k | k in CountryPaperSizes :: IsPaperSize(CountryPaperSizes[k])
  {
    A4RegionsA4();
    AmericasLetter();
    AsiaTwoSized();
    MergedSizes(A4_REGIONS, ASIA_2, CENTRAL_AMERICA, NORTH_AMERICA);
  }

  // ---- get_paper_size ----

  /** The size is the table entry of the upper-cased text after the last '_',
      a4 for a country the table does not list. */
  lemma LookupOfLocale(table: map<string, string>, prefix: string, country: string)
    requires '_' !in country
    ensures PaperSizeIn(table, Some(prefix + "_" + country)) ==
      if Upper(country) in table then table[Upper(country)] else A4
  {
    CountryCodeOf(prefix, country);
    assert '_' in prefix + "_" + country by {
      assert (prefix + "_" + country)[|prefix|] == '_';
    }
  }

  lemma PaperSizeOfLocale(prefix: string, country: string)
    requires '_' !in country
    ensures PaperSize(Some(prefix + "_" + country)) ==
      if Upper(country) in CountryPaperSizes then CountryPaperSizes[Upper(country)] else A4
  {
    LookupOfLocale(CountryPaperSizes, prefix, country);
  }

  /** No locale, an empty one, or one without '_' gives a4. */
  lemma NoCountryGivesA4(loc: Option<string>)
    requires loc.None? || '_' !in loc.value
    ensures PaperSize(loc) == A4
  {
  }

  lemma CaseInsensitiveIn(table: map<string, string>, prefix1: string, country1: string, prefix2: string, country2: string)
    requires '_' !in country1 && '_' !in country2
    requires Upper(country1) == Upper(country2)
    ensures PaperSizeIn(table, Some(prefix1 + "_" + country1)) == PaperSizeIn(table, Some(prefix2 + "_" + country2))
  {
    LookupOfLocale(table, prefix1, country1);
    LookupOfLocale(table, prefix2, country2);
  }

  /** Case does not matter: two locales whose last segments upper-case alike
      get the same size. */
  lemma CaseInsensitive(prefix1: string, country1: string, prefix2: string, country2: string)
    requires '_' !in country1 && '_' !in country2
    requires Upper(country1) == Upper(country2)
    ensures PaperSize(Some(prefix1 + "_" + country1)) == PaperSize(Some(prefix2 + "_" + country2))
  {
    CaseInsensitiveIn(CountryPaperSizes, prefix1, country1, prefix2, country2);
  }

  lemma RangeIn(table: map<string, string>, loc: Option<string>)
    requires forall k | k in table :: IsPaperSize(table[k])
    ensures IsPaperSize(PaperSizeIn(table, loc))
  {
  }

  /** The result is always one of a4, letter and JIS B5. */
  lemma PaperSizeRange(loc: Option<string>)
    ensures IsPaperSize(PaperSize(loc))
  {
    TableSizes();
    RangeIn(CountryPaperSizes, loc);
  }

  // The examples below take their string facts from lemmas that do not see the
  // whole table.

  lemma ExampleLocales()
    ensures "en_US" == "en" + "_" + "US" && '_' !in "US" && Upper("US") == "US"
    ensures "en_us" == "en" + "_" + "us" && '_' !in "us" && Upper("us") == "US"
    ensures "ja_JP" == "ja" + "_" + "JP" && '_' !in "JP" && Upper("JP") == "JP"
    ensures "fil_PH" == "fil" + "_" + "PH" && '_' !in "PH" && Upper("PH") == "PH"
    ensures "fr_FR" == "fr" + "_" + "FR" && '_' !in "FR" && Upper("FR") == "FR"
  {
  }

  lemma ExampleRegions()
    ensures "US" in NORTH_AMERICA
    ensures "JP" in ASIA_2 && "JP" !in NORTH_AMERICA && "JP" !in CENTRAL_AMERICA
    ensures "PH" in ASIA_2 && "PH" !in NORTH_AMERICA && "PH" !in CENTRAL_AMERICA
    ensures "FR" in EUROPE_1 && "FR" !in NORTH_AMERICA && "FR" !in CENTRAL_AMERICA && "FR" !in ASIA_2
  {
    FranceRegions();
  }

  lemma FranceRegions()
    ensures "FR" in EUROPE_1 && "FR" !in NORTH_AMERICA && "FR" !in CENTRAL_AMERICA && "FR" !in ASIA_2
  {
  }

  lemma UnitedStatesLetter()
    ensures PaperSize(Some("en_US")) == LETTER
    ensures PaperSize(Some("en_us")) == LETTER
  {
    ExampleLocales();
    ExampleRegions();
    PaperSizeOfLocale("en", "US");
    PaperSizeOfLocale("en", "us");
    AmericasEntry("US");
  }

  lemma JapanJisB5()
    ensures PaperSize(Some("ja_JP")) == JIS_B5
  {
    ExampleLocales();
    ExampleRegions();
    PaperSizeOfLocale("ja", "JP");
    AsiaTwoEntry("JP");
  }

  lemma PhilippinesLetter()
    ensures PaperSize(Some("fil_PH")) == LETTER
  {
    ExampleLocales();
    ExampleRegions();
    PaperSizeOfLocale("fil", "PH");
    AsiaTwoEntry("PH");
  }

  lemma FranceA4()
    ensures PaperSize(Some("fr_FR")) == A4
  {
    ExampleLocales();
    ExampleRegions();
    PaperSizeOfLocale("fr", "FR");
    ElsewhereEntry("FR");
  }
}
