/** Worked records: what map and reduce do with concrete input lines. */
module Samples {
  import opened Base
  import opened JavaText
  import opened GenreMapper
  import opened CountReducer

  /** The input line holding the six given fields. */
  function Line(id: string, titleType: string, title: string, year: string, rating: string, genres: string): string
  {
    Join([id, titleType, title, year, rating, genres], ';')
  }

  /** A line of six `;`-free fields, the last one not empty, splits back into those fields. */
  lemma FieldsOfLine(id: string, titleType: string, title: string, year: string, rating: string, genres: string)
    requires ';' !in id && ';' !in titleType && ';' !in title && ';' !in year && ';' !in rating && ';' !in genres
    requires genres != []
    ensures Split(Line(id, titleType, title, year, rating, genres), ';')
         == [id, titleType, title, year, rating, genres]
  {
    SplitOfJoin([id, titleType, title, year, rating, genres], ';');
  }

  // ---------------------------------------------------------------------------
  // Parsed field values used below
  // ---------------------------------------------------------------------------

  /** The canonical decimal text of a year in 1000..2999 parses to that year. */
  lemma YearText(y: nat)
    requires 1000 <= y < 3000
    ensures ParseInt(Decimal(y)) == Some(y)
  {
    ParseIntOfDecimal(y);
  }

  lemma Year1990()
    ensures ParseInt("1990") == Some(1990) && TimePeriod(1990) == None
  {
    assert Decimal(1990) == "1990" by { DecimalFourDigits(1, 9, 9, 0); }
    YearText(1990);
  }

  lemma Year1995()
    ensures ParseInt("1995") == Some(1995) && TimePeriod(1995) == Some(From1991To2000)
  {
    assert Decimal(1995) == "1995" by { DecimalFourDigits(1, 9, 9, 5); }
    YearText(1995);
  }

  lemma Year2000()
    ensures ParseInt("2000") == Some(2000) && TimePeriod(2000) == Some(From1991To2000)
  {
    assert Decimal(2000) == "2000" by { DecimalFourDigits(2, 0, 0, 0); }
    YearText(2000);
  }

  lemma Year2001()
    ensures ParseInt("2001") == Some(2001) && TimePeriod(2001) == Some(From2001To2010)
  {
    assert Decimal(2001) == "2001" by { DecimalFourDigits(2, 0, 0, 1); }
    YearText(2001);
  }

  lemma Year2005()
    ensures ParseInt("2005") == Some(2005) && TimePeriod(2005) == Some(From2001To2010)
  {
    assert Decimal(2005) == "2005" by { DecimalFourDigits(2, 0, 0, 5); }
    YearText(2005);
  }

  lemma Year2021()
    ensures ParseInt("2021") == Some(2021) && TimePeriod(2021) == None
  {
    assert Decimal(2021) == "2021" by { DecimalFourDigits(2, 0, 2, 1); }
    YearText(2021);
  }

  lemma RatingOneDecimal(whole: char, tenth: char)
    requires IsDigit(whole) && IsDigit(tenth)
    ensures ParseFloat([whole, '.', tenth])
         == Some(Finite(false, 10 * (whole as int - '0' as int) + (tenth as int - '0' as int), -1))
  {
    FixedPointLiteral([whole], [tenth]);
    assert [whole] + "." + [tenth] == [whole, '.', tenth];
    assert [whole, tenth][..1] == [whole];
  }

  lemma Rating70()
    ensures ParseFloat("7.0") == Some(Finite(false, 70, -1)) && !LessThanSeven(Finite(false, 70, -1))
  {
    RatingOneDecimal('7', '0');
  }

  lemma Rating75()
    ensures ParseFloat("7.5") == Some(Finite(false, 75, -1)) && !LessThanSeven(Finite(false, 75, -1))
  {
    RatingOneDecimal('7', '5');
  }

  lemma Rating80()
    ensures ParseFloat("8.0") == Some(Finite(false, 80, -1)) && !LessThanSeven(Finite(false, 80, -1))
  {
    RatingOneDecimal('8', '0');
  }

  lemma TwoDigitsValue(a: char, b: char)
    requires IsDigit(a) && IsDigit(b)
    ensures DigitsValue([a, b]) == 10 * (a as int - '0' as int) + (b as int - '0' as int)
  {
    assert [a, b][..1] == [a];
    assert [a][..0] == [];
  }

  lemma ThreeDigitsValue(a: char, b: char, c: char)
    requires IsDigit(a) && IsDigit(b) && IsDigit(c)
    ensures DigitsValue([a, b, c])
         == 100 * (a as int - '0' as int) + 10 * (b as int - '0' as int) + (c as int - '0' as int)
  {
    assert [a, b, c][..2] == [a, b];
    TwoDigitsValue(a, b);
  }

  lemma RatingTwoDecimals(whole: char, tenth: char, hundredth: char)
    requires IsDigit(whole) && IsDigit(tenth) && IsDigit(hundredth)
    ensures ParseFloat([whole, '.', tenth, hundredth])
         == Some(Finite(false, 100 * (whole as int - '0' as int) + 10 * (tenth as int - '0' as int)
                               + (hundredth as int - '0' as int), -2))
  {
    ThreeDigitsValue(whole, tenth, hundredth);
    assert [whole] + "." + [tenth, hundredth] == [whole, '.', tenth, hundredth];
    assert [whole] + [tenth, hundredth] == [whole, tenth, hundredth];
    FixedPointLiteral([whole], [tenth, hundredth]);
  }

  lemma Rating699()
    ensures ParseFloat("6.99") == Some(Finite(false, 699, -2))
  {
    RatingTwoDecimals('6', '9', '9');
  }

  lemma Below699()
    ensures LessThanSeven(Finite(false, 699, -2))
  {
    assert Pow10(2) == 100;
  }

  lemma RatingNaN()
    ensures ParseFloat("NaN") == Some(NaN) && !LessThanSeven(NaN)
  {
    TrimPrintable("NaN");
  }

  lemma Movie()
    ensures EqualsIgnoreCase("movie", "movie")
  {
  }

  /** Splitting a genre field of two names. */
  lemma TwoGenres(a: string, b: string, field: string)
    requires ',' !in a && ',' !in b && b != [] && field == a + "," + b
    ensures GenreSet(field) == {a, b}
  {
    SplitOfJoin([a, b], ',');
    assert Join([a, b], ',') == field;
  }

  /** Splitting a genre field of three names. */
  lemma ThreeGenres(a: string, b: string, c: string, field: string)
    requires ',' !in a && ',' !in b && ',' !in c && c != [] && field == a + "," + b + "," + c
    ensures GenreSet(field) == {a, b, c}
  {
    SplitOfJoin([a, b, c], ',');
    assert [a, b, c][1..] == [b, c];
    assert Join([b, c], ',') == b + "," + c;
    assert Join([a, b, c], ',') == a + [','] + (b + "," + c);
    assert a + [','] + (b + "," + c) == field;
  }

  lemma ActionThriller()
    ensures GenreSet("Action,Thriller") == {"Action", "Thriller"}
  {
    TwoGenres("Action", "Thriller", "Action,Thriller");
  }

  lemma ComedyRomance()
    ensures GenreSet("Comedy,Romance") == {"Comedy", "Romance"}
  {
    TwoGenres("Comedy", "Romance", "Comedy,Romance");
  }

  lemma AdventureDrama()
    ensures GenreSet("Adventure,Drama") == {"Adventure", "Drama"}
  {
    TwoGenres("Adventure", "Drama", "Adventure,Drama");
  }

  lemma ActionThrillerComedy()
    ensures GenreSet("Action,Thriller,Comedy") == {"Action", "Thriller", "Comedy"}
  {
    ThreeGenres("Action", "Thriller", "Comedy", "Action,Thriller,Comedy");
  }

  lemma LowerCaseActionThriller()
    ensures GenreSet("action,thriller") == {"action", "thriller"}
  {
    TwoGenres("action", "thriller", "action,thriller");
  }

  /** The pairs written for each genre set used below. */
  lemma EmitSamples(p: Period)
    ensures Emit(p, {"Action", "Thriller"}, TargetCombos) == [KeyValue(KeyFor(p, Combo("Action", "Thriller")), 1)]
    ensures Emit(p, {"Action", "Thriller", "Comedy"}, TargetCombos)
         == [KeyValue(KeyFor(p, Combo("Action", "Thriller")), 1)]
    ensures Emit(p, {"Adventure", "Drama"}, TargetCombos) == [KeyValue(KeyFor(p, Combo("Adventure", "Drama")), 1)]
    ensures Emit(p, {"Comedy", "Romance"}, TargetCombos) == [KeyValue(KeyFor(p, Combo("Comedy", "Romance")), 1)]
    ensures Emit(p, {"action", "thriller"}, TargetCombos) == []
  {
    assert TargetCombos[..2][..1] == TargetCombos[..1];
    assert TargetCombos[..1][..0] == [];
  }

  // ---------------------------------------------------------------------------
  // The filter on concrete title types, years and ratings, for any genre set
  // ---------------------------------------------------------------------------

  /** The filter on a movie whose rating and year both parse. */
  lemma MovieFilter(year: string, rating: string, g: set<string>, y: int, f: FloatLiteral)
    requires ParseInt(year) == Some(y) && ParseFloat(rating) == Some(f)
    ensures Filter("movie", year, rating, g)
         == if LessThanSeven(f) then Rejected(BelowThreshold)
            else if TimePeriod(y).None? then Rejected(OutsidePeriods)
            else Eligible(TimePeriod(y).value, g)
  {
    Movie();
  }

  lemma Movie1995At70(g: set<string>)
    ensures Filter("movie", "1995", "7.0", g) == Eligible(From1991To2000, g)
  {
    Rating70();
    Year1995();
    MovieFilter("1995", "7.0", g, 1995, Finite(false, 70, -1));
  }

  lemma Movie1995At75(g: set<string>)
    ensures Filter("movie", "1995", "7.5", g) == Eligible(From1991To2000, g)
  {
    Rating75();
    Year1995();
    MovieFilter("1995", "7.5", g, 1995, Finite(false, 75, -1));
  }

  lemma Movie2000At80(g: set<string>)
    ensures Filter("movie", "2000", "8.0", g) == Eligible(From1991To2000, g)
  {
    Rating80();
    Year2000();
    MovieFilter("2000", "8.0", g, 2000, Finite(false, 80, -1));
  }

  lemma Movie2001At80(g: set<string>)
    ensures Filter("movie", "2001", "8.0", g) == Eligible(From2001To2010, g)
  {
    Rating80();
    Year2001();
    MovieFilter("2001", "8.0", g, 2001, Finite(false, 80, -1));
  }

  lemma Movie2005At80(g: set<string>)
    ensures Filter("movie", "2005", "8.0", g) == Eligible(From2001To2010, g)
  {
    Rating80();
    Year2005();
    MovieFilter("2005", "8.0", g, 2005, Finite(false, 80, -1));
  }

  lemma Movie1995Unrated(g: set<string>)
    ensures Filter("movie", "1995", "NaN", g) == Eligible(From1991To2000, g)
  {
    RatingNaN();
    Year1995();
    MovieFilter("1995", "NaN", g, 1995, NaN);
  }

  lemma TvSeries(g: set<string>)
    ensures Filter("TV Series", "1995", "9.0", g) == Rejected(NotAMovie)
  {
    assert !EqualsIgnoreCase("movie", "TV Series");
  }

  lemma Movie1995At699(g: set<string>)
    ensures Filter("movie", "1995", "6.99", g) == Rejected(BelowThreshold)
  {
    Rating699();
    Below699();
    Year1995();
    MovieFilter("1995", "6.99", g, 1995, Finite(false, 699, -2));
  }

  lemma Movie1990At80(g: set<string>)
    ensures Filter("movie", "1990", "8.0", g) == Rejected(OutsidePeriods)
  {
    Rating80();
    Year1990();
    MovieFilter("1990", "8.0", g, 1990, Finite(false, 80, -1));
  }

  lemma Movie2021At80(g: set<string>)
    ensures Filter("movie", "2021", "8.0", g) == Rejected(OutsidePeriods)
  {
    Rating80();
    Year2021();
    MovieFilter("2021", "8.0", g, 2021, Finite(false, 80, -1));
  }

  // ---------------------------------------------------------------------------
  // Whole lines
  // ---------------------------------------------------------------------------

  /** The six fields hold no `;` and the genre field is not empty. */
  predicate Plain(id: string, titleType: string, title: string, year: string, rating: string, genres: string)
  {
    && ';' !in id && ';' !in titleType && ';' !in title && ';' !in year && ';' !in rating && ';' !in genres
    && genres != []
  }

  /** A line whose fields pass the filter into bucket p writes the pairs of p and its genre set. */
  lemma EligibleLine(id: string, titleType: string, title: string, year: string, rating: string, genres: string, p: Period)
    requires Plain(id, titleType, title, year, rating, genres)
    requires Filter(titleType, year, rating, GenreSet(genres)) == Eligible(p, GenreSet(genres))
    ensures MapRecord(Line(id, titleType, title, year, rating, genres))
         == Emitted(Emit(p, GenreSet(genres), TargetCombos))
  {
    FieldsOfLine(id, titleType, title, year, rating, genres);
  }

  /** A line whose fields the filter rejects writes nothing. */
  lemma RejectedLine(id: string, titleType: string, title: string, year: string, rating: string, genres: string)
    requires Plain(id, titleType, title, year, rating, genres)
    requires Filter(titleType, year, rating, GenreSet(genres)).Rejected?
    ensures MapRecord(Line(id, titleType, title, year, rating, genres)) == Emitted([])
  {
    FieldsOfLine(id, titleType, title, year, rating, genres);
  }

  /** 7.0 exactly passes the threshold. */
  lemma Rating70Emits(id: string, title: string)
    requires ';' !in id && ';' !in title
    ensures MapRecord(Line(id, "movie", title, "1995", "7.0", "Action,Thriller"))
         == Emitted([KeyValue("[1991-2000],Action;Thriller", 1)])
  {
    assert Plain(id, "movie", title, "1995", "7.0", "Action,Thriller");
    Movie1995At70(GenreSet("Action,Thriller"));
    EligibleLine(id, "movie", title, "1995", "7.0", "Action,Thriller", From1991To2000);
    ActionThriller();
    EmitSamples(From1991To2000);
    KeyNinetiesActionThriller();
  }

  /** 2000 belongs to the first bucket. */
  lemma Year2000InFirstBucket(id: string, title: string)
    requires ';' !in id && ';' !in title
    ensures MapRecord(Line(id, "movie", title, "2000", "8.0", "Comedy,Romance"))
         == Emitted([KeyValue("[1991-2000],Comedy;Romance", 1)])
  {
    assert Plain(id, "movie", title, "2000", "8.0", "Comedy,Romance");
    Movie2000At80(GenreSet("Comedy,Romance"));
    EligibleLine(id, "movie", title, "2000", "8.0", "Comedy,Romance", From1991To2000);
    ComedyRomance();
    EmitSamples(From1991To2000);
    KeyNinetiesComedyRomance();
  }

  /** 2001 belongs to the second bucket. */
  lemma Year2001InSecondBucket(id: string, title: string)
    requires ';' !in id && ';' !in title
    ensures MapRecord(Line(id, "movie", title, "2001", "8.0", "Comedy,Romance"))
         == Emitted([KeyValue("[2001-2010],Comedy;Romance", 1)])
  {
    assert Plain(id, "movie", title, "2001", "8.0", "Comedy,Romance");
    Movie2001At80(GenreSet("Comedy,Romance"));
    EligibleLine(id, "movie", title, "2001", "8.0", "Comedy,Romance", From2001To2010);
    ComedyRomance();
    EmitSamples(From2001To2010);
    KeyNoughtiesComedyRomance();
  }

  /** Action, Thriller and Comedy count for Action;Thriller only: Romance is missing. */
  lemma OnlyCompletePairs(id: string, title: string)
    requires ';' !in id && ';' !in title
    ensures MapRecord(Line(id, "movie", title, "1995", "7.5", "Action,Thriller,Comedy"))
         == Emitted([KeyValue("[1991-2000],Action;Thriller", 1)])
  {
    assert Plain(id, "movie", title, "1995", "7.5", "Action,Thriller,Comedy");
    Movie1995At75(GenreSet("Action,Thriller,Comedy"));
    EligibleLine(id, "movie", title, "1995", "7.5", "Action,Thriller,Comedy", From1991To2000);
    ActionThrillerComedy();
    EmitSamples(From1991To2000);
    KeyNinetiesActionThriller();
  }

  /** Genre names are matched with their case. */
  lemma GenresAreCaseSensitive(id: string, title: string)
    requires ';' !in id && ';' !in title
    ensures MapRecord(Line(id, "movie", title, "1995", "7.5", "action,thriller")) == Emitted([])
  {
    assert Plain(id, "movie", title, "1995", "7.5", "action,thriller");
    Movie1995At75(GenreSet("action,thriller"));
    EligibleLine(id, "movie", title, "1995", "7.5", "action,thriller", From1991To2000);
    LowerCaseActionThriller();
    EmitSamples(From1991To2000);
  }

  /** A NaN rating is not below 7.0, so the record passes the threshold. */
  lemma NaNRatingPasses(id: string, title: string)
    requires ';' !in id && ';' !in title
    ensures MapRecord(Line(id, "movie", title, "1995", "NaN", "Action,Thriller"))
         == Emitted([KeyValue("[1991-2000],Action;Thriller", 1)])
  {
    assert Plain(id, "movie", title, "1995", "NaN", "Action,Thriller");
    Movie1995Unrated(GenreSet("Action,Thriller"));
    EligibleLine(id, "movie", title, "1995", "NaN", "Action,Thriller", From1991To2000);
    ActionThriller();
    EmitSamples(From1991To2000);
    KeyNinetiesActionThriller();
  }

  /** A TV series is dropped whatever its rating, year and genres. */
  lemma TvSeriesEmitsNothing(id: string, title: string)
    requires ';' !in id && ';' !in title
    ensures MapRecord(Line(id, "TV Series", title, "1995", "9.0", "Action,Thriller")) == Emitted([])
  {
    assert Plain(id, "TV Series", title, "1995", "9.0", "Action,Thriller");
    TvSeries(GenreSet("Action,Thriller"));
    RejectedLine(id, "TV Series", title, "1995", "9.0", "Action,Thriller");
  }

  /** The title type is compared ignoring case. */
  lemma TitleTypeIgnoresCase()
    ensures EqualsIgnoreCase("movie", "Movie") && EqualsIgnoreCase("movie", "MOVIE")
    ensures !EqualsIgnoreCase("movie", "movies") && !EqualsIgnoreCase("movie", "tvMovie")
  {
  }

  /** 6.99 is below the threshold. */
  lemma Rating699EmitsNothing(id: string, title: string)
    requires ';' !in id && ';' !in title
    ensures MapRecord(Line(id, "movie", title, "1995", "6.99", "Action,Thriller")) == Emitted([])
  {
    assert Plain(id, "movie", title, "1995", "6.99", "Action,Thriller");
    Movie1995At699(GenreSet("Action,Thriller"));
    RejectedLine(id, "movie", title, "1995", "6.99", "Action,Thriller");
  }

  /** 1990 falls outside every bucket. */
  lemma Year1990Dropped(id: string, title: string)
    requires ';' !in id && ';' !in title
    ensures MapRecord(Line(id, "movie", title, "1990", "8.0", "Comedy,Romance")) == Emitted([])
  {
    assert Plain(id, "movie", title, "1990", "8.0", "Comedy,Romance");
    Movie1990At80(GenreSet("Comedy,Romance"));
    RejectedLine(id, "movie", title, "1990", "8.0", "Comedy,Romance");
  }

  /** 2021 falls outside every bucket. */
  lemma Year2021Dropped(id: string, title: string)
    requires ';' !in id && ';' !in title
    ensures MapRecord(Line(id, "movie", title, "2021", "8.0", "Comedy,Romance")) == Emitted([])
  {
    assert Plain(id, "movie", title, "2021", "8.0", "Comedy,Romance");
    Movie2021At80(GenreSet("Comedy,Romance"));
    RejectedLine(id, "movie", title, "2021", "8.0", "Comedy,Romance");
  }

  /** An empty genre field is dropped by split, leaving five fields: map throws. */
  lemma EmptyGenreFieldThrows(id: string, title: string)
    requires ';' !in id && ';' !in title
    ensures MapRecord(Line(id, "movie", title, "1995", "7.5", "")) == IndexOutOfBounds
  {
    var fields := [id, "movie", title, "1995", "7.5", ""];
    PiecesOfJoin(fields, ';');
    assert Join(fields, ';')[|id| + 1 + |"movie"|] == ';';
    assert DropTrailingEmpty(fields) == DropTrailingEmpty(fields[..5]) == fields[..5];
  }

  /** An Adventure/Drama movie of 2005 rated 8.0. */
  lemma AdventureDrama2005(id: string, title: string)
    requires ';' !in id && ';' !in title
    ensures MapRecord(Line(id, "movie", title, "2005", "8.0", "Adventure,Drama"))
         == Emitted([KeyValue("[2001-2010],Adventure;Drama", 1)])
  {
    assert Plain(id, "movie", title, "2005", "8.0", "Adventure,Drama");
    Movie2005At80(GenreSet("Adventure,Drama"));
    EligibleLine(id, "movie", title, "2005", "8.0", "Adventure,Drama", From2001To2010);
    AdventureDrama();
    EmitSamples(From2001To2010);
    KeyNoughtiesAdventureDrama();
  }

  /**
   * Two Adventure/Drama movies of 2005 rated 8.0 each write one pair under
   * the same key, and reduce gives that key the total 2.
   */
  lemma TwoRecordRun(id1: string, title1: string, id2: string, title2: string)
    requires ';' !in id1 && ';' !in title1 && ';' !in id2 && ';' !in title2
    ensures MapRecord(Line(id1, "movie", title1, "2005", "8.0", "Adventure,Drama"))
         == Emitted([KeyValue("[2001-2010],Adventure;Drama", 1)])
    ensures MapRecord(Line(id2, "movie", title2, "2005", "8.0", "Adventure,Drama"))
         == Emitted([KeyValue("[2001-2010],Adventure;Drama", 1)])
    ensures Sum([MapRecord(Line(id1, "movie", title1, "2005", "8.0", "Adventure,Drama")).pairs[0].value,
                 MapRecord(Line(id2, "movie", title2, "2005", "8.0", "Adventure,Drama")).pairs[0].value]) == 2
  {
    AdventureDrama2005(id1, title1);
    AdventureDrama2005(id2, title2);
    SumOfCounts([1, 1]);
  }
}
