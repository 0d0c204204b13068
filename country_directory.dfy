/**
 * The country directory and the two lookups the registration page runs
 * against it: the phone-code lookup (name or dial code) and the
 * country-of-origin lookup (name only). The network fetch and the JSON
 * parse are an input: a directory that either holds the parsed records or
 * signals that fetching or parsing failed.
 */
module CountryDirectory {
  import opened Wrappers
  import opened Text
  import opened Sequences

  datatype Name = Name(common: string)

  /** International direct dialling data; either part may be absent. */
  datatype Idd = Idd(root: Option<string>, suffixes: Option<seq<string>>)

  datatype Flags = Flags(svg: string)

  /** One element of the parsed directory array. */
  datatype Country = Country(name: Name, idd: Option<Idd>, flags: Flags)

  /** Outcome of fetching and parsing the directory. */
  datatype Directory = Loaded(records: seq<Country>) | Failed

  /** Option of the phone-code selector (its rendered label is left out). */
  datatype PhoneCodeOption = PhoneCodeOption(value: string, code: string, flag: string)

  /** Option of the country-of-origin selector (its rendered label is left out). */
  datatype CountryOption = CountryOption(value: string, flag: string)

  /** `country.idd?.root || ""`. */
  function Root(c: Country): (r: string)
    ensures c.idd.None? || c.idd.value.root.None? ==> r == ""
    ensures c.idd.Some? && c.idd.value.root.Some? ==> r == c.idd.value.root.value
  {
    match c.idd
    case None => ""
    case Some(idd) => match idd.root { case None => "" case Some(r) => r }
  }

  /** `country.idd?.suffixes?.[0] || ""`. */
  function FirstSuffix(c: Country): (r: string)
    ensures c.idd.None? || c.idd.value.suffixes.None? || c.idd.value.suffixes.value == [] ==> r == ""
    ensures c.idd.Some? && c.idd.value.suffixes.Some? && c.idd.value.suffixes.value != [] ==> r == c.idd.value.suffixes.value[0]
  {
    match c.idd
    case None => ""
    case Some(idd) =>
      match idd.suffixes { case None => "" case Some(ss) => if |ss| == 0 then "" else ss[0] }
  }

  /** The dial code shown and matched for a record: root followed by the first suffix. */
  function DialCode(c: Country): (r: string)
    ensures IsPrefix(Root(c), r) && r[|Root(c)|..] == FirstSuffix(c)
  {
    Root(c) + FirstSuffix(c)
  }

  /** Name match of both lookups: the lower-cased common name includes the lower-cased query. */
  predicate NameMatches(c: Country, query: string)
    ensures query == "" ==> NameMatches(c, query)
  {
    ContainsEmpty(Lower(c.name.common));
    Contains(Lower(c.name.common), Lower(query))
  }

  /** Filter of the phone-code lookup; the dial code itself is not lower-cased. */
  predicate PhoneCodeMatches(c: Country, query: string)
    ensures NameMatches(c, query) ==> PhoneCodeMatches(c, query)
    ensures DialCode(c) == "" ==> (PhoneCodeMatches(c, query) <==> NameMatches(c, query))
  {
    NameMatches(c, query) || Contains(DialCode(c), Lower(query))
  }

  /** One phone-code option per record: its dial code as both value and code, and its flag. */
  function ToPhoneCodeOption(c: Country): (o: PhoneCodeOption)
    ensures o.value == o.code
    ensures o.code == DialCode(c) && o.flag == c.flags.svg
  {
    PhoneCodeOption(DialCode(c), DialCode(c), c.flags.svg)
  }

  /** One country option per record: its common name as value, and its flag. */
  function ToCountryOption(c: Country): (o: CountryOption)
    ensures o.value == c.name.common && o.flag == c.flags.svg
  {
    CountryOption(c.name.common, c.flags.svg)
  }

  /** Records the phone-code lookup keeps, in directory order. */
  function PhoneCodeMatching(records: seq<Country>, query: string): (kept: seq<Country>)
    ensures |kept| <= |records|
    ensures forall c :: c in kept <==> c in records && PhoneCodeMatches(c, query)
  {
    FilterMembership(records, c => PhoneCodeMatches(c, query));
    Filter(records, c => PhoneCodeMatches(c, query))
  }

  /** Records the country lookup keeps, in directory order. */
  function CountryMatching(records: seq<Country>, query: string): (kept: seq<Country>)
    ensures |kept| <= |records|
    ensures forall c :: c in kept <==> c in records && NameMatches(c, query)
  {
    FilterMembership(records, c => NameMatches(c, query));
    Filter(records, c => NameMatches(c, query))
  }

  /** `loadCountryPhoneCodeOptions(query)` against the given directory. */
  function LoadCountryPhoneCodeOptions(dir: Directory, query: string): (r: seq<PhoneCodeOption>)
    ensures dir.Failed? ==> r == []
    ensures dir.Loaded? ==> |r| <= |dir.records|
  {
    match dir
    case Failed => []
    case Loaded(records) =>
      var kept := PhoneCodeMatching(records, query);
      seq(|kept|, i requires 0 <= i < |kept| => ToPhoneCodeOption(kept[i]))
  }

  /** `loadCountryOptions(query)` against the given directory. */
  function LoadCountryOptions(dir: Directory, query: string): (r: seq<CountryOption>)
    ensures dir.Failed? ==> r == []
    ensures dir.Loaded? ==> |r| <= |dir.records|
  {
    match dir
    case Failed => []
    case Loaded(records) =>
      var kept := CountryMatching(records, query);
      seq(|kept|, i requires 0 <= i < |kept| => ToCountryOption(kept[i]))
  }

  /** Absent dialling data of any kind contributes the empty string, never an error. */
  lemma DialCodeDefaults(name: Name, flags: Flags, root: string, suffix: string, rest: seq<string>)
    ensures DialCode(Country(name, None, flags)) == ""
    ensures DialCode(Country(name, Some(Idd(None, None)), flags)) == ""
    ensures DialCode(Country(name, Some(Idd(None, Some([]))), flags)) == ""
    ensures DialCode(Country(name, Some(Idd(Some(root), None)), flags)) == root
    ensures DialCode(Country(name, Some(Idd(Some(root), Some([]))), flags)) == root
    ensures DialCode(Country(name, Some(Idd(None, Some([suffix] + rest))), flags)) == suffix
    ensures DialCode(Country(name, Some(Idd(Some(root), Some([suffix] + rest))), flags)) == root + suffix
  {
  }

  /**
   * The phone-code lookup keeps exactly the records whose name or dial code
   * matches, in directory order and with their multiplicity, one option per
   * kept record carrying its dial code as value and code and its flag.
   */
  lemma PhoneCodeLookupSpec(records: seq<Country>, query: string)
    ensures var kept := PhoneCodeMatching(records, query);
      && (forall c :: c in kept <==> c in records && PhoneCodeMatches(c, query))
      && IsSubsequence(kept, records)
      && (forall c :: multiset(kept)[c] == if PhoneCodeMatches(c, query) then multiset(records)[c] else 0)
    ensures var kept := PhoneCodeMatching(records, query);
      var r := LoadCountryPhoneCodeOptions(Loaded(records), query);
      && |r| == |kept|
      && forall i :: 0 <= i < |r| ==>
           r[i].value == DialCode(kept[i]) && r[i].code == DialCode(kept[i]) && r[i].flag == kept[i].flags.svg
  {
    var p := c => PhoneCodeMatches(c, query);
    FilterMembership(records, p);
    FilterIsSubsequence(records, p);
    forall c ensures multiset(Filter(records, p))[c] == if p(c) then multiset(records)[c] else 0 {
      FilterCount(records, p, c);
    }
  }

  /**
   * The country lookup keeps exactly the records whose name matches, in
   * directory order and with their multiplicity, one option per kept record
   * carrying its common name and its flag.
   */
  lemma CountryLookupSpec(records: seq<Country>, query: string)
    ensures var kept := CountryMatching(records, query);
      && (forall c :: c in kept <==> c in records && NameMatches(c, query))
      && IsSubsequence(kept, records)
      && (forall c :: multiset(kept)[c] == if NameMatches(c, query) then multiset(records)[c] else 0)
    ensures var kept := CountryMatching(records, query);
      var r := LoadCountryOptions(Loaded(records), query);
      && |r| == |kept|
      && forall i :: 0 <= i < |r| ==> r[i].value == kept[i].name.common && r[i].flag == kept[i].flags.svg
  {
    var p := c => NameMatches(c, query);
    FilterMembership(records, p);
    FilterIsSubsequence(records, p);
    forall c ensures multiset(Filter(records, p))[c] == if p(c) then multiset(records)[c] else 0 {
      FilterCount(records, p, c);
    }
  }

  /** Every option of the phone-code lookup comes from a matching record, and every matching record yields one. */
  lemma PhoneCodeOptionsFromRecords(records: seq<Country>, query: string)
    ensures var r := LoadCountryPhoneCodeOptions(Loaded(records), query);
      && (forall o :: o in r ==> o.value == o.code && exists c :: c in records && PhoneCodeMatches(c, query) && o == ToPhoneCodeOption(c))
      && (forall c :: c in records && PhoneCodeMatches(c, query) ==> ToPhoneCodeOption(c) in r)
  {
    var p := c => PhoneCodeMatches(c, query);
    var kept := Filter(records, p);
    var r := LoadCountryPhoneCodeOptions(Loaded(records), query);
    assert |r| == |kept| && forall i :: 0 <= i < |r| ==> r[i] == ToPhoneCodeOption(kept[i]);
    FilterMembership(records, p);
    forall o | o in r
      ensures o.value == o.code && exists c :: c in records && PhoneCodeMatches(c, query) && o == ToPhoneCodeOption(c)
    {
      var i :| 0 <= i < |r| && r[i] == o;
      assert kept[i] in kept;
    }
    forall c | c in records && PhoneCodeMatches(c, query)
      ensures ToPhoneCodeOption(c) in r
    {
      assert c in kept;
      var i :| 0 <= i < |kept| && kept[i] == c;
      assert r[i] == ToPhoneCodeOption(c);
    }
  }

  /** Every option of the country lookup comes from a matching record, and every matching record yields one. */
  lemma CountryOptionsFromRecords(records: seq<Country>, query: string)
    ensures var r := LoadCountryOptions(Loaded(records), query);
      && (forall o :: o in r ==> exists c :: c in records && NameMatches(c, query) && o == ToCountryOption(c))
      && (forall c :: c in records && NameMatches(c, query) ==> ToCountryOption(c) in r)
  {
    var p := c => NameMatches(c, query);
    var kept := Filter(records, p);
    var r := LoadCountryOptions(Loaded(records), query);
    assert |r| == |kept| && forall i :: 0 <= i < |r| ==> r[i] == ToCountryOption(kept[i]);
    FilterMembership(records, p);
    forall o | o in r
      ensures exists c :: c in records && NameMatches(c, query) && o == ToCountryOption(c)
    {
      var i :| 0 <= i < |r| && r[i] == o;
      assert kept[i] in kept;
    }
    forall c | c in records && NameMatches(c, query)
      ensures ToCountryOption(c) in r
    {
      assert c in kept;
      var i :| 0 <= i < |kept| && kept[i] == c;
      assert r[i] == ToCountryOption(c);
    }
  }

  /** Every record the country lookup keeps is kept by the phone-code lookup too, in the same order. */
  lemma CountryMatchesArePhoneCodeMatches(records: seq<Country>, query: string)
    ensures IsSubsequence(CountryMatching(records, query), PhoneCodeMatching(records, query))
    ensures forall c :: c in CountryMatching(records, query) ==> c in PhoneCodeMatching(records, query)
  {
    FilterMonotone(records, c => NameMatches(c, query), c => PhoneCodeMatches(c, query));
    FilterMembership(records, c => PhoneCodeMatches(c, query));
  }

  /** A record without a dial code is kept by the phone-code lookup only on a name match or for the empty query. */
  lemma EmptyDialCodeMatch(c: Country, query: string)
    requires DialCode(c) == ""
    ensures PhoneCodeMatches(c, query) <==> NameMatches(c, query) || query == ""
  {
    ContainsInEmpty(Lower(query));
    LowerEmpty(query);
  }

  /** The empty query is included in every name, so both lookups return one option per record. */
  lemma EmptyQueryKeepsAll(records: seq<Country>)
    ensures PhoneCodeMatching(records, "") == records
    ensures CountryMatching(records, "") == records
    ensures |LoadCountryPhoneCodeOptions(Loaded(records), "")| == |records|
    ensures |LoadCountryOptions(Loaded(records), "")| == |records|
  {
    forall c: Country ensures NameMatches(c, "") {
      ContainsEmpty(Lower(c.name.common));
    }
    FilterAll(records, c => PhoneCodeMatches(c, ""));
    FilterAll(records, c => NameMatches(c, ""));
  }

  /** A failed fetch or parse yields no options in either lookup, whatever the query. */
  lemma FailureYieldsNothing(query: string)
    ensures LoadCountryPhoneCodeOptions(Failed, query) == []
    ensures LoadCountryOptions(Failed, query) == []
  {
  }

  /** Colombia as the directory lists it: root "+5", suffixes ["7"]. */
  function Colombia(): Country {
    Country(Name("Colombia"), Some(Idd(Some("+5"), Some(["7"]))), Flags("https://flagcdn.com/co.svg"))
  }

  /** Colombia's dial code joins its root and its single suffix. */
  lemma ColombiaDialCode()
    ensures DialCode(Colombia()) == "+57"
  {
  }

  /** "CO" finds Colombia through its name; "57" does not. */
  lemma ColombiaNameMatches()
    ensures NameMatches(Colombia(), "CO")
    ensures !NameMatches(Colombia(), "57")
  {
    assert Lower("Colombia") == "colombia";
    assert Lower("CO") == "co" && Lower("57") == "57";
    assert IsPrefix("co", "colombia");
    assert !Contains("colombia", "57") by {
      if Contains("colombia", "57") {
        ContainsFirstChar("colombia", "57");
        assert false;
      }
    }
  }

  /** "57" finds Colombia through its dial code "+57" alone. */
  lemma ColombiaMatches()
    ensures PhoneCodeMatches(Colombia(), "57") && !NameMatches(Colombia(), "57")
  {
    ColombiaDialCode();
    ColombiaNameMatches();
    assert Lower("57") == "57";
    assert "+57"[1..] == "57";
    assert IsPrefix("57", "57");
    assert Contains("57", "57");
    assert Contains("+57", "57");
  }

  /** Looking up "57" in a directory holding only Colombia. */
  lemma ColombiaLookups()
    ensures LoadCountryPhoneCodeOptions(Loaded([Colombia()]), "57") == [PhoneCodeOption("+57", "+57", "https://flagcdn.com/co.svg")]
    ensures LoadCountryOptions(Loaded([Colombia()]), "57") == []
  {
    var c := Colombia();
    ColombiaDialCode();
    ColombiaMatches();
    assert [c][1..] == [];
    assert PhoneCodeMatching([c], "57") == [c];
    assert ToPhoneCodeOption(c) == PhoneCodeOption("+57", "+57", "https://flagcdn.com/co.svg");
    assert CountryMatching([c], "57") == [];
  }
}
