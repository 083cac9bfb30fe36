/**
 * GenreMapper: reads one `;`-separated title record, keeps highly rated movies
 * of the three decades, and emits ("[period],G1;G2", 1) for each target genre
 * pair the title carries.
 */
module GenreMapper {
  import opened Base
  import opened JavaText

  // ---------------------------------------------------------------------------
  // Time periods (getTimePeriod)
  // ---------------------------------------------------------------------------

  /** The three decade buckets, each covering First()..Last() inclusive. */
  datatype Period = From1991To2000 | From2001To2010 | From2011To2020
  {
    function First(): int
    {
      match this
      case From1991To2000 => 1991
      case From2001To2010 => 2001
      case From2011To2020 => 2011
    }

    function Last(): int
    {
      First() + 9
    }

    /** The text of the bucket in the output key. */
    function Label(): string
    {
      match this
      case From1991To2000 => "1991-2000"
      case From2001To2010 => "2001-2010"
      case From2011To2020 => "2011-2020"
    }
  }

  const Periods: seq<Period> := [From1991To2000, From2001To2010, From2011To2020]

  /** getTimePeriod(year); None stands for the null it returns outside every bucket. */
  function TimePeriod(year: int): (r: Option<Period>)
    ensures r.Some? <==> 1991 <= year <= 2020
    ensures r.Some? ==> r.value.First() <= year <= r.value.Last()
  {
    if 1991 <= year <= 2000 then Some(From1991To2000)
    else if 2001 <= year <= 2010 then Some(From2001To2010)
    else if 2011 <= year <= 2020 then Some(From2011To2020)
    else None
  }

  /** The buckets do not overlap, so the bucket containing a year is the one TimePeriod gives. */
  lemma TimePeriodIsTheContainingBucket(year: int, p: Period)
    requires p.First() <= year <= p.Last()
    ensures TimePeriod(year) == Some(p)
  {
  }

  /** A label reads as the bucket's first and last year. */
  lemma LabelNamesItsYears(p: Period)
    ensures p.Label() == Decimal(p.First()) + "-" + Decimal(p.Last())
  {
    match p
    case From1991To2000 => NinetiesLabel();
    case From2001To2010 => NoughtiesLabel();
    case From2011To2020 => TensLabel();
  }

  lemma NinetiesLabel()
    ensures From1991To2000.Label() == Decimal(1991) + "-" + Decimal(2000)
  {
    assert Decimal(1991) == "1991" by { DecimalFourDigits(1, 9, 9, 1); }
    assert Decimal(2000) == "2000" by { DecimalFourDigits(2, 0, 0, 0); }
  }

  lemma NoughtiesLabel()
    ensures From2001To2010.Label() == Decimal(2001) + "-" + Decimal(2010)
  {
    assert Decimal(2001) == "2001" by { DecimalFourDigits(2, 0, 0, 1); }
    assert Decimal(2010) == "2010" by { DecimalFourDigits(2, 0, 1, 0); }
  }

  lemma TensLabel()
    ensures From2011To2020.Label() == Decimal(2011) + "-" + Decimal(2020)
  {
    assert Decimal(2011) == "2011" by { DecimalFourDigits(2, 0, 1, 1); }
    assert Decimal(2020) == "2020" by { DecimalFourDigits(2, 0, 2, 0); }
  }

  /** No two buckets share a label, and every label is nine characters long. */
  lemma LabelsDistinct(p: Period, q: Period)
    ensures |p.Label()| == 9
    ensures p.Label() == q.Label() ==> p == q
  {
  }

  // ---------------------------------------------------------------------------
  // Target genre combinations and output keys
  // ---------------------------------------------------------------------------

  /** A pair of genre names, in the order the output key lists them. */
  datatype Combo = Combo(first: string, second: string)

  /** TARGET_COMBOS, iterated in the order the source lists them. */
  const TargetCombos: seq<Combo> :=
    [Combo("Action", "Thriller"), Combo("Adventure", "Drama"), Combo("Comedy", "Romance")]

  /** The three target combinations are distinct and none has ';' in its first genre. */
  lemma TargetCombosShape()
    ensures |TargetCombos| == 3
    ensures forall i, j :: 0 <= i < j < |TargetCombos| ==> TargetCombos[i] != TargetCombos[j]
    ensures KeyableCombos(TargetCombos)
  {
  }

  /** The genre part of a key, "first;second" (genreKey). */
  function GenreKey(c: Combo): string
  {
    c.first + ";" + c.second
  }

  /** The output key "[period],first;second". */
  function KeyFor(p: Period, c: Combo): (r: string)
    ensures |r| == 12 + |c.first| + 1 + |c.second|
    ensures r[0] == '[' && r[1..10] == p.Label() && r[10..12] == "]," && r[12..] == GenreKey(c)
  {
    LabelsDistinct(p, p);
    "[" + p.Label() + "]," + GenreKey(c)
  }

  /** The nine keys of the job's output, three per bucket. */
  const OutputKeys: set<string> := {
    "[1991-2000],Action;Thriller", "[1991-2000],Adventure;Drama", "[1991-2000],Comedy;Romance",
    "[2001-2010],Action;Thriller", "[2001-2010],Adventure;Drama", "[2001-2010],Comedy;Romance",
    "[2011-2020],Action;Thriller", "[2011-2020],Adventure;Drama", "[2011-2020],Comedy;Romance"
  }

  // The nine keys spelled out, one lemma each so that each string comparison is
  // proved on its own.

  lemma KeyNinetiesActionThriller()
    ensures KeyFor(From1991To2000, Combo("Action", "Thriller")) == "[1991-2000],Action;Thriller"
  {
  }

  lemma KeyNinetiesAdventureDrama()
    ensures KeyFor(From1991To2000, Combo("Adventure", "Drama")) == "[1991-2000],Adventure;Drama"
  {
  }

  lemma KeyNinetiesComedyRomance()
    ensures KeyFor(From1991To2000, Combo("Comedy", "Romance")) == "[1991-2000],Comedy;Romance"
  {
  }

  lemma KeyNoughtiesActionThriller()
    ensures KeyFor(From2001To2010, Combo("Action", "Thriller")) == "[2001-2010],Action;Thriller"
  {
  }

  lemma KeyNoughtiesAdventureDrama()
    ensures KeyFor(From2001To2010, Combo("Adventure", "Drama")) == "[2001-2010],Adventure;Drama"
  {
  }

  lemma KeyNoughtiesComedyRomance()
    ensures KeyFor(From2001To2010, Combo("Comedy", "Romance")) == "[2001-2010],Comedy;Romance"
  {
  }

  lemma KeyTensActionThriller()
    ensures KeyFor(From2011To2020, Combo("Action", "Thriller")) == "[2011-2020],Action;Thriller"
  {
  }

  lemma KeyTensAdventureDrama()
    ensures KeyFor(From2011To2020, Combo("Adventure", "Drama")) == "[2011-2020],Adventure;Drama"
  {
  }

  lemma KeyTensComedyRomance()
    ensures KeyFor(From2011To2020, Combo("Comedy", "Romance")) == "[2011-2020],Comedy;Romance"
  {
  }

  /** The keys of the 1991-2000 bucket, spelled out. */
  lemma NinetiesKeys()
    ensures KeyFor(From1991To2000, Combo("Action", "Thriller")) == "[1991-2000],Action;Thriller"
    ensures KeyFor(From1991To2000, Combo("Adventure", "Drama")) == "[1991-2000],Adventure;Drama"
    ensures KeyFor(From1991To2000, Combo("Comedy", "Romance")) == "[1991-2000],Comedy;Romance"
  {
    KeyNinetiesActionThriller();
    KeyNinetiesAdventureDrama();
    KeyNinetiesComedyRomance();
  }

  /** The keys of the 2001-2010 bucket, spelled out. */
  lemma NoughtiesKeys()
    ensures KeyFor(From2001To2010, Combo("Action", "Thriller")) == "[2001-2010],Action;Thriller"
    ensures KeyFor(From2001To2010, Combo("Adventure", "Drama")) == "[2001-2010],Adventure;Drama"
    ensures KeyFor(From2001To2010, Combo("Comedy", "Romance")) == "[2001-2010],Comedy;Romance"
  {
    KeyNoughtiesActionThriller();
    KeyNoughtiesAdventureDrama();
    KeyNoughtiesComedyRomance();
  }

  /** The keys of the 2011-2020 bucket, spelled out. */
  lemma TensKeys()
    ensures KeyFor(From2011To2020, Combo("Action", "Thriller")) == "[2011-2020],Action;Thriller"
    ensures KeyFor(From2011To2020, Combo("Adventure", "Drama")) == "[2011-2020],Adventure;Drama"
    ensures KeyFor(From2011To2020, Combo("Comedy", "Romance")) == "[2011-2020],Comedy;Romance"
  {
    KeyTensActionThriller();
    KeyTensAdventureDrama();
    KeyTensComedyRomance();
  }

  /** In a + [sep] + b with sep not in a, position |a| holds the first sep. */
  lemma FirstSeparator(a: string, b: string, sep: char)
    requires sep !in a
    ensures (a + [sep] + b)[|a|] == sep
    ensures forall i :: 0 <= i < |a| ==> (a + [sep] + b)[i] != sep
  {
  }

  /** Splitting at the first separator: a prefix free of `sep` is recovered from the joined string. */
  lemma SeparatedPrefix(a: string, b: string, a': string, b': string, sep: char)
    requires sep !in a && sep !in a'
    requires a + [sep] + b == a' + [sep] + b'
    ensures a == a' && b == b'
  {
    var s := a + [sep] + b;
    FirstSeparator(a, b, sep);
    FirstSeparator(a', b', sep);
    assert |a| == |a'|;
    assert a == s[..|a|] == a';
    assert b == s[|a| + 1..] == b';
  }

  /** Keys are collision-free: distinct (period, combo) pairs never share a key. */
  lemma KeyForInjective(p: Period, c: Combo, p': Period, c': Combo)
    requires ';' !in c.first && ';' !in c'.first
    requires KeyFor(p, c) == KeyFor(p', c')
    ensures p == p' && c == c'
  {
    var k := KeyFor(p, c);
    LabelsDistinct(p, p');
    LabelsDistinct(p', p);
    var head, head' := "[" + p.Label() + "],", "[" + p'.Label() + "],";
    assert k == head + GenreKey(c) == head' + GenreKey(c');
    assert |head| == |head'| == 12;
    assert head == k[..12] == head';
    assert head[1..10] == p.Label() && head'[1..10] == p'.Label();
    assert GenreKey(c) == k[12..] == GenreKey(c');
    SeparatedPrefix(c.first, c.second, c'.first, c'.second, ';');
  }

  /** Every key built from a bucket and a target combination is one of the nine output keys. */
  lemma KeysInVocabulary(p: Period, c: Combo)
    requires c in TargetCombos
    ensures KeyFor(p, c) in OutputKeys
  {
    match p
    case From1991To2000 => NinetiesKeys();
    case From2001To2010 => NoughtiesKeys();
    case From2011To2020 => TensKeys();
  }

  /** Each of the nine output keys is the key of a bucket and a target combination. */
  lemma OutputKeyIsBuilt(k: string)
    requires k in OutputKeys
    ensures exists p: Period, c :: c in TargetCombos && k == KeyFor(p, c)
  {
    if k == "[1991-2000],Action;Thriller" {
      KeyNinetiesActionThriller();
      assert KeyFor(From1991To2000, Combo("Action", "Thriller")) == k;
      assert Combo("Action", "Thriller") in TargetCombos;
    } else if k == "[1991-2000],Adventure;Drama" {
      KeyNinetiesAdventureDrama();
      assert KeyFor(From1991To2000, Combo("Adventure", "Drama")) == k;
      assert Combo("Adventure", "Drama") in TargetCombos;
    } else if k == "[1991-2000],Comedy;Romance" {
      KeyNinetiesComedyRomance();
      assert KeyFor(From1991To2000, Combo("Comedy", "Romance")) == k;
      assert Combo("Comedy", "Romance") in TargetCombos;
    } else if k == "[2001-2010],Action;Thriller" {
      KeyNoughtiesActionThriller();
      assert KeyFor(From2001To2010, Combo("Action", "Thriller")) == k;
      assert Combo("Action", "Thriller") in TargetCombos;
    } else if k == "[2001-2010],Adventure;Drama" {
      KeyNoughtiesAdventureDrama();
      assert KeyFor(From2001To2010, Combo("Adventure", "Drama")) == k;
      assert Combo("Adventure", "Drama") in TargetCombos;
    } else if k == "[2001-2010],Comedy;Romance" {
      KeyNoughtiesComedyRomance();
      assert KeyFor(From2001To2010, Combo("Comedy", "Romance")) == k;
      assert Combo("Comedy", "Romance") in TargetCombos;
    } else if k == "[2011-2020],Action;Thriller" {
      KeyTensActionThriller();
      assert KeyFor(From2011To2020, Combo("Action", "Thriller")) == k;
      assert Combo("Action", "Thriller") in TargetCombos;
    } else if k == "[2011-2020],Adventure;Drama" {
      KeyTensAdventureDrama();
      assert KeyFor(From2011To2020, Combo("Adventure", "Drama")) == k;
      assert Combo("Adventure", "Drama") in TargetCombos;
    } else if k == "[2011-2020],Comedy;Romance" {
      KeyTensComedyRomance();
      assert KeyFor(From2011To2020, Combo("Comedy", "Romance")) == k;
      assert Combo("Comedy", "Romance") in TargetCombos;
    } else {
      assert false;
    }
  }

  /** The nine output keys are distinct strings. */
  lemma NineOutputKeys()
    ensures |OutputKeys| == 9
  {
  }

  /**
   * The nine keys of the output are exactly the keys of a bucket and a target
   * combination.
   */
  lemma OutputKeysAreTheBucketKeys()
    ensures forall k :: k in OutputKeys <==> exists p: Period, c :: c in TargetCombos && k == KeyFor(p, c)
  {
    forall p: Period, c | c in TargetCombos
      ensures KeyFor(p, c) in OutputKeys
    {
      KeysInVocabulary(p, c);
    }
    forall k | k in OutputKeys
      ensures exists p: Period, c :: c in TargetCombos && k == KeyFor(p, c)
    {
      OutputKeyIsBuilt(k);
    }
  }

  // ---------------------------------------------------------------------------
  // Emission (the loop over TARGET_COMBOS)
  // ---------------------------------------------------------------------------

  /** Both genres of the combination occur in the title's genre set. */
  predicate Matches(c: Combo, genres: set<string>)
  {
    c.first in genres && c.second in genres
  }

  /** The pairs written for `combos`, in order: one (key, 1) per matching combination. */
  function Emit(p: Period, genres: set<string>, combos: seq<Combo>): (r: seq<KeyValue>)
    ensures |r| <= |combos|
    ensures forall kv :: kv in r ==> kv.value == 1
  {
    if combos == [] then []
    else
      var c := combos[|combos| - 1];
      Emit(p, genres, combos[..|combos| - 1])
        + (if Matches(c, genres) then [KeyValue(KeyFor(p, c), 1)] else [])
  }

  /** A pair is written exactly when it is (key of a matching combination, 1). */
  lemma {:induction false} EmitMembership(p: Period, genres: set<string>, combos: seq<Combo>, kv: KeyValue)
    ensures kv in Emit(p, genres, combos) <==>
              kv.value == 1 && exists c :: c in combos && Matches(c, genres) && kv.key == KeyFor(p, c)
  {
    if combos != [] {
      var init, c := combos[..|combos| - 1], combos[|combos| - 1];
      assert combos == init + [c];
      EmitMembership(p, genres, init, kv);
      if kv.value == 1 && exists c' :: c' in combos && Matches(c', genres) && kv.key == KeyFor(p, c') {
        var c' :| c' in combos && Matches(c', genres) && kv.key == KeyFor(p, c');
        if c' != c {
          assert c' in init;
        }
      }
    }
  }

  /** Combinations whose first genre cannot be confused with the key's separator. */
  predicate KeyableCombos(combos: seq<Combo>)
  {
    forall i :: 0 <= i < |combos| ==> ';' !in combos[i].first
  }

  /** Distinct combinations give distinct keys, so no key is written twice. */
  lemma {:induction false} EmitDistinctKeys(p: Period, genres: set<string>, combos: seq<Combo>)
    requires KeyableCombos(combos)
    requires forall i, j :: 0 <= i < j < |combos| ==> combos[i] != combos[j]
    ensures forall i, j :: 0 <= i < j < |Emit(p, genres, combos)| ==>
              Emit(p, genres, combos)[i].key != Emit(p, genres, combos)[j].key
  {
    if combos != [] {
      var init, c := combos[..|combos| - 1], combos[|combos| - 1];
      EmitDistinctKeys(p, genres, init);
      var before := Emit(p, genres, init);
      if Matches(c, genres) {
        var r := Emit(p, genres, combos);
        assert r == before + [KeyValue(KeyFor(p, c), 1)];
        forall i | 0 <= i < |before|
          ensures before[i].key != KeyFor(p, c)
        {
          EmitMembership(p, genres, init, before[i]);
          var c' :| c' in init && Matches(c', genres) && before[i].key == KeyFor(p, c');
          var j :| 0 <= j < |init| && init[j] == c';
          assert combos[j] == c' && combos[|combos| - 1] == c;
          if before[i].key == KeyFor(p, c) {
            KeyForInjective(p, c', p, c);
          }
        }
      }
    }
  }

  // ---------------------------------------------------------------------------
  // The record filter
  // ---------------------------------------------------------------------------

  /** Why a well-formed record contributes nothing, in the order the checks run. */
  datatype Rejection = NotAMovie | NumberFormat | BelowThreshold | OutsidePeriods

  datatype Verdict = Eligible(period: Period, genres: set<string>) | Rejected(reason: Rejection)

  /** The genre names of the comma-split genre field, duplicates merged (new HashSet<>(...)). */
  function GenreSet(field: string): (r: set<string>)
    ensures forall g :: g in r ==> ',' !in g
    ensures ',' !in field ==> r == {field}
  {
    set g | g in Split(field, ',')
  }

  /**
   * The filter chain of map on the title type, the start year text, the rating
   * text and the genre set; the rating is parsed before the year.
   */
  function Filter(titleType: string, startYear: string, rating: string, genres: set<string>): (r: Verdict)
    ensures r.Eligible? <==>
              && EqualsIgnoreCase("movie", titleType)
              && ParseFloat(rating).Some? && !LessThanSeven(ParseFloat(rating).value)
              && ParseInt(startYear).Some? && 1991 <= ParseInt(startYear).value <= 2020
    ensures r.Eligible? ==> r.genres == genres && TimePeriod(ParseInt(startYear).value) == Some(r.period)
  {
    if !EqualsIgnoreCase("movie", titleType) then Rejected(NotAMovie)
    else
      var r, y := ParseFloat(rating), ParseInt(startYear);
      if r.None? || y.None? then Rejected(NumberFormat)
      else if LessThanSeven(r.value) then Rejected(BelowThreshold)
      else
        match TimePeriod(y.value)
        case None => Rejected(OutsidePeriods)
        case Some(p) => Eligible(p, genres)
  }

  /** The filter applied to fields 1 (title type), 3 (start year), 4 (rating) and 5 (genres). */
  function Classify(fields: seq<string>): (r: Verdict)
    requires |fields| >= 6
    ensures r == Rejected(NotAMovie) <==> !EqualsIgnoreCase("movie", fields[1])
    ensures r.Eligible? ==> r.genres == GenreSet(fields[5])
  {
    Filter(fields[1], fields[3], fields[4], GenreSet(fields[5]))
  }

  /** What one call of map does: the pairs it writes, or the exception it throws. */
  datatype MapOutcome = Emitted(pairs: seq<KeyValue>) | IndexOutOfBounds

  /**
   * The specification of map on one input line: it throws exactly when the
   * line splits into fewer than six fields, and otherwise writes at most one
   * pair per target combination, each with value 1.
   */
  function MapRecord(line: string): (r: MapOutcome)
    ensures r.IndexOutOfBounds? <==> |Split(line, ';')| < 6
    ensures r.Emitted? ==> |r.pairs| <= |TargetCombos| && forall kv :: kv in r.pairs ==> kv.value == 1
  {
    var fields := Split(line, ';');
    if |fields| < 6 then IndexOutOfBounds
    else
      match Classify(fields)
      case Rejected(_) => Emitted([])
      case Eligible(p, genres) => Emitted(Emit(p, genres, TargetCombos))
  }

  /** GenreMapper.map: the filter chain, then the loop that writes one pair per matching combination. */
  method Map(line: string) returns (out: MapOutcome)
    ensures out == MapRecord(line)
  {
    var fields := Split(line, ';');
    if |fields| < 6 {
      return IndexOutOfBounds;
    }
    var titleType, startYearStr, ratingStr := fields[1], fields[3], fields[4];
    var genres := Split(fields[5], ',');
    if !EqualsIgnoreCase("movie", titleType) {
      return Emitted([]);
    }
    var rating := ParseFloat(ratingStr);
    var year := ParseInt(startYearStr);
    if rating.None? || year.None? {
      return Emitted([]);
    }
    if LessThanSeven(rating.value) {
      return Emitted([]);
    }
    var timePeriod := TimePeriod(year.value);
    if timePeriod.None? {
      return Emitted([]);
    }
    var genreSet := set g | g in genres;
    assert Classify(fields) == Eligible(timePeriod.value, genreSet);
    var written := WriteMatches(timePeriod.value, genreSet);
    return Emitted(written);
  }

  /** The loop of map over TARGET_COMBOS, writing (key, 1) for each combination the title carries. */
  method WriteMatches(p: Period, genreSet: set<string>) returns (written: seq<KeyValue>)
    ensures written == Emit(p, genreSet, TargetCombos)
  {
    written := [];
    for i := 0 to |TargetCombos|
      invariant written == Emit(p, genreSet, TargetCombos[..i])
    {
      var combo := TargetCombos[i];
      if combo.first in genreSet && combo.second in genreSet {
        written := written + [KeyValue(KeyFor(p, combo), 1)];
      }
      assert TargetCombos[..i + 1][..i] == TargetCombos[..i];
    }
    assert TargetCombos[..|TargetCombos|] == TargetCombos;
  }

  // ---------------------------------------------------------------------------
  // Properties of map
  // ---------------------------------------------------------------------------

  /** A title type other than "movie" (ignoring case) emits nothing, whatever the other fields hold. */
  lemma NotAMovieEmitsNothing(line: string)
    requires |Split(line, ';')| >= 6
    requires !EqualsIgnoreCase("movie", Split(line, ';')[1])
    ensures MapRecord(line) == Emitted([])
    ensures Classify(Split(line, ';')) == Rejected(NotAMovie)
  {
  }

  /** An unparsable rating or year emits nothing. */
  lemma NumberFormatEmitsNothing(line: string)
    requires |Split(line, ';')| >= 6
    requires ParseFloat(Split(line, ';')[4]).None? || ParseInt(Split(line, ';')[3]).None?
    ensures MapRecord(line) == Emitted([])
  {
  }

  /** A rating under 7.0 emits nothing. */
  lemma BelowThresholdEmitsNothing(line: string)
    requires |Split(line, ';')| >= 6
    requires ParseFloat(Split(line, ';')[4]).Some?
    requires LessThanSeven(ParseFloat(Split(line, ';')[4]).value)
    ensures MapRecord(line) == Emitted([])
  {
  }

  /** A year outside the three buckets emits nothing. */
  lemma OutsidePeriodsEmitsNothing(line: string)
    requires |Split(line, ';')| >= 6
    requires ParseInt(Split(line, ';')[3]).Some?
    requires TimePeriod(ParseInt(Split(line, ';')[3]).value).None?
    ensures MapRecord(line) == Emitted([])
  {
  }

  /**
   * For a title in bucket p, the pair for a target combination is written if
   * and only if both its genre names are in the title's genre set, and every
   * written pair is (key of such a combination, 1).
   */
  lemma EmitIffBothGenres(p: Period, genres: set<string>)
    ensures forall c :: c in TargetCombos ==>
              (KeyValue(KeyFor(p, c), 1) in Emit(p, genres, TargetCombos) <==> Matches(c, genres))
    ensures forall kv :: kv in Emit(p, genres, TargetCombos) ==>
              kv.value == 1 && exists c :: c in TargetCombos && Matches(c, genres) && kv.key == KeyFor(p, c)
  {
    assert KeyableCombos(TargetCombos);
    forall c | c in TargetCombos
      ensures KeyValue(KeyFor(p, c), 1) in Emit(p, genres, TargetCombos) <==> Matches(c, genres)
    {
      EmitMembership(p, genres, TargetCombos, KeyValue(KeyFor(p, c), 1));
      if KeyValue(KeyFor(p, c), 1) in Emit(p, genres, TargetCombos) {
        var c' :| c' in TargetCombos && Matches(c', genres) && KeyFor(p, c) == KeyFor(p, c');
        KeyForInjective(p, c, p, c');
      }
    }
    forall kv | kv in Emit(p, genres, TargetCombos)
      ensures kv.value == 1 && exists c :: c in TargetCombos && Matches(c, genres) && kv.key == KeyFor(p, c)
    {
      EmitMembership(p, genres, TargetCombos, kv);
    }
  }

  /**
   * An eligible line writes the pair of a target combination, under the key
   * of the year's bucket, exactly when both genre names occur verbatim (same
   * case, no trimming) among the comma-split pieces of field 5.
   */
  lemma EligibleRecordWrites(line: string)
    requires |Split(line, ';')| >= 6 && Classify(Split(line, ';')).Eligible?
    ensures var fields := Split(line, ';');
            var v := Classify(fields);
            && MapRecord(line).Emitted?
            && TimePeriod(ParseInt(fields[3]).value) == Some(v.period)
            && forall c :: c in TargetCombos ==>
                 (KeyValue(KeyFor(v.period, c), 1) in MapRecord(line).pairs <==>
                    c.first in Split(fields[5], ',') && c.second in Split(fields[5], ','))
  {
    var v := Classify(Split(line, ';'));
    EmitIffBothGenres(v.period, v.genres);
  }

  /**
   * For any bucket and genre set, at most three pairs are written, each with
   * value 1, under distinct keys drawn from the nine output keys.
   */
  lemma EmissionsBounded(p: Period, genres: set<string>)
    ensures var pairs := Emit(p, genres, TargetCombos);
            |pairs| <= 3
            && (forall kv :: kv in pairs ==> kv.value == 1 && kv.key in OutputKeys)
            && (forall i, j :: 0 <= i < j < |pairs| ==> pairs[i].key != pairs[j].key)
  {
    assert KeyableCombos(TargetCombos);
    EmitDistinctKeys(p, genres, TargetCombos);
    forall kv | kv in Emit(p, genres, TargetCombos)
      ensures kv.key in OutputKeys
    {
      EmitMembership(p, genres, TargetCombos, kv);
      var c :| c in TargetCombos && Matches(c, genres) && kv.key == KeyFor(p, c);
      KeysInVocabulary(p, c);
    }
  }

  /**
   * Only the title type, year, rating and set of genre names matter: two
   * records that agree on the first three and whose genre fields name the
   * same genres (in any order, with any repetition) get the same verdict.
   */
  lemma OnlyGenreSetMatters(fields: seq<string>, fields': seq<string>)
    requires |fields| >= 6 && |fields'| >= 6
    requires fields[1] == fields'[1] && fields[3] == fields'[3] && fields[4] == fields'[4]
    requires GenreSet(fields[5]) == GenreSet(fields'[5])
    ensures Classify(fields) == Classify(fields')
  {
  }
}
