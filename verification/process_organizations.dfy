/** `01_process_organizations.py`: the organisations register gets a
    `full_address` column, its four date columns are read as `%d-%m-%Y`, and
    twelve columns are kept. */
module ProcessOrganizations {
  import opened Common
  import opened Text
  import opened Dates

  /** An `NR_HUIS_VEST` cell. A column that pandas reads as numbers with gaps is
      a float column, and `astype(str)` renders its values with a trailing `.0`. */
  datatype HouseNumber = NoNumber | NumberText(text: string) | FloatNumber(value: nat)

  /** `fillna('').astype(str)` on the house number. */
  function HouseNumberText(h: HouseNumber): (s: string)
    ensures h.FloatNumber? ==> s == NatToString(h.value) + ".0"
    ensures h.NumberText? ==> s == h.text
    ensures h.NoNumber? ==> s == ""
  {
    match h
    case NoNumber => ""
    case NumberText(t) => t
    case FloatNumber(n) => NatToString(n) + ".0"
  }

  /** Street, house number and suffix joined by single spaces, missing parts as ''. */
  function FullAddress(street: Option<string>, number: HouseNumber, suffix: Option<string>): (s: string)
    ensures |s| == |OrEmpty(street)| + |HouseNumberText(number)| + |OrEmpty(suffix)| + 2
    ensures s[..|OrEmpty(street)|] == OrEmpty(street) && s[|OrEmpty(street)|] == ' '
    ensures s[|s| - |OrEmpty(suffix)|..] == OrEmpty(suffix) && s[|s| - |OrEmpty(suffix)| - 1] == ' '
    ensures s[|OrEmpty(street)| + 1..|s| - |OrEmpty(suffix)| - 1] == HouseNumberText(number)
  {
    var s := OrEmpty(street) + " " + HouseNumberText(number) + " " + OrEmpty(suffix);
    assert s[..|OrEmpty(street)|] == OrEmpty(street);
    assert s[|OrEmpty(street)| + 1..|s| - |OrEmpty(suffix)| - 1] == HouseNumberText(number);
    assert s[|s| - |OrEmpty(suffix)|..] == OrEmpty(suffix);
    s
  }

  predicate Dotless(s: string) { forall i :: 0 <= i < |s| ==> s[i] != '.' }

  /** A `.0` between two dotless stretches, followed by a space, is the only
      thing the substitution removes. */
  lemma DotZeroBeforeSpace(d: string, c: string)
    requires Dotless(d) && Dotless(c)
    ensures StripDotZero(d + (".0" + (" " + c))) == d + (" " + c)
  {
    var t := ".0" + (" " + c);
    StripDotZeroSkipsDotless(d, t);
    assert DotZeroAt(t, 0);
    assert t[2..] == " " + c;
    StripDotZeroSkipsDotless(" " + c, []);
    assert (" " + c) + [] == " " + c;
  }

  /** The `.0` a float house number leaves in the address is exactly what the
      geocoding step's `.0` substitution removes again. */
  lemma FloatHouseNumberRepaired(street: Option<string>, n: nat, suffix: Option<string>)
    requires Dotless(OrEmpty(street)) && Dotless(OrEmpty(suffix))
    ensures StripDotZero(FullAddress(street, FloatNumber(n), suffix))
      == FullAddress(street, NumberText(NatToString(n)), suffix)
  {
    var a, b, c := OrEmpty(street), NatToString(n), OrEmpty(suffix);
    DigitsDotless(b);
    JoinedDotless(a, b);
    AddressAround(street, FloatNumber(n), suffix);
    AddressAround(street, NumberText(b), suffix);
    FloatTextRegrouped(a, b, c);
    DotZeroBeforeSpace(a + " " + b, c);
  }

  lemma FloatTextRegrouped(a: string, b: string, c: string)
    ensures (a + " " + (b + ".0")) + (" " + c) == (a + " " + b) + (".0" + (" " + c))
  {
  }

  /** The address is the street, a space and the house number text, then a space and the suffix. */
  lemma AddressAround(street: Option<string>, number: HouseNumber, suffix: Option<string>)
    ensures FullAddress(street, number, suffix)
      == (OrEmpty(street) + " " + HouseNumberText(number)) + (" " + OrEmpty(suffix))
  {
  }

  lemma DigitsDotless(s: string)
    requires AllDigits(s)
    ensures Dotless(s)
  {
    forall i | 0 <= i < |s| ensures s[i] != '.' {
      assert IsDigit(s[i]);
    }
  }

  lemma JoinedDotless(a: string, b: string)
    requires Dotless(a) && Dotless(b)
    ensures Dotless(a + " " + b)
  {
    var s := a + " " + b;
    forall i | 0 <= i < |s| ensures s[i] != '.' {
      if i >= |a| + 1 {
        assert s[i] == b[i - |a| - 1];
      }
    }
  }

  /** The columns of the register the script reads. `dates` holds
      DT_IN_BEDRIJF, DT_UIT_BEDRIJF, DT_BEGIN_RECORD and DT_EINDE_RECORD in that order;
      `fullAddress` is None until the column is created. */
  datatype Organisation = Organisation(
    nrAdministratie: Option<string>,
    codeFunctie: Option<string>,
    codeSoort: Option<string>,
    naamVolledig: Option<string>,
    street: Option<string>,
    houseNumber: HouseNumber,
    suffix: Option<string>,
    postcode: Option<string>,
    city: Option<string>,
    province: Option<string>,
    codeStandRecord: Option<string>,
    indOpgeheven: Option<string>,
    dates: seq<DateField>,
    fullAddress: Option<string>)

  /** The number of date columns converted. */
  const DateColumnCount: nat := 4

  /** A row of `clean_organizations.csv`: the twelve selected columns in order. */
  datatype CleanOrganisation = CleanOrganisation(
    nrAdministratie: Option<string>,
    codeFunctie: Option<string>,
    codeSoort: Option<string>,
    naamVolledig: Option<string>,
    fullAddress: string,
    postcode: Option<string>,
    city: Option<string>,
    province: Option<string>,
    dtInBedrijf: Option<Stamp>,
    dtUitBedrijf: Option<Stamp>,
    codeStandRecord: Option<string>,
    indOpgeheven: Option<string>)

  /** What a freshly read row looks like: four unconverted date cells. */
  predicate IsRawRow(r: Organisation) {
    |r.dates| == DateColumnCount && forall j :: 0 <= j < DateColumnCount ==> r.dates[j].RawDate?
  }

  /** The value of a converted date cell. */
  function DateValue(f: DateField): Option<Stamp> {
    if f.ParsedDate? then f.date else None
  }

  /** The output row for an input row: the address built, the two operating
      dates parsed strictly, the other ten columns copied. */
  function CleanRow(r: Organisation): (c: CleanOrganisation)
    requires IsRawRow(r)
    ensures c.fullAddress == FullAddress(r.street, r.houseNumber, r.suffix)
    ensures c.dtInBedrijf == DateValue(CoerceDMY(r.dates[0])) && c.dtUitBedrijf == DateValue(CoerceDMY(r.dates[1]))
    ensures c.nrAdministratie == r.nrAdministratie && c.codeFunctie == r.codeFunctie
      && c.codeSoort == r.codeSoort && c.naamVolledig == r.naamVolledig
    ensures c.postcode == r.postcode && c.city == r.city && c.province == r.province
    ensures c.codeStandRecord == r.codeStandRecord && c.indOpgeheven == r.indOpgeheven
  {
    CleanOrganisation(r.nrAdministratie, r.codeFunctie, r.codeSoort, r.naamVolledig,
      FullAddress(r.street, r.houseNumber, r.suffix), r.postcode, r.city, r.province,
      DateValue(CoerceDMY(r.dates[0])), DateValue(CoerceDMY(r.dates[1])),
      r.codeStandRecord, r.indOpgeheven)
  }

  /** A start date survives only when its text is a real `DD-MM-YYYY` day. */
  lemma CleanRowStartDate(r: Organisation, d: Date)
    requires IsRawRow(r) && r.dates[0].text.Some?
    ensures CleanRow(r).dtInBedrijf == Some(d) <==> Spells(r.dates[0].text.value, d) && IsStampDay(d)
  {
  }

  /** The twelve columns kept, from a row whose dates are converted. */
  function Selected(r: Organisation): (c: CleanOrganisation)
    requires |r.dates| == DateColumnCount
  {
    CleanOrganisation(r.nrAdministratie, r.codeFunctie, r.codeSoort, r.naamVolledig,
      OrEmpty(r.fullAddress), r.postcode, r.city, r.province,
      DateValue(r.dates[0]), DateValue(r.dates[1]), r.codeStandRecord, r.indOpgeheven)
  }

  /** The register as the script's DataFrame `df`. */
  class OrganisationFrame {
    var rows: seq<Organisation>

    /** Every row has its four date cells. */
    predicate Valid()
      reads this
    {
      forall i :: 0 <= i < |rows| ==> |rows[i].dates| == DateColumnCount
    }

    constructor (rows: seq<Organisation>)
      ensures this.rows == rows
    {
      this.rows := rows;
    }

    /** `df['full_address'] = ...` */
    method AddFullAddress()
      modifies this
      ensures |rows| == |old(rows)|
      ensures forall i :: 0 <= i < |rows| ==>
        rows[i] == old(rows)[i].(fullAddress := Some(FullAddress(old(rows)[i].street, old(rows)[i].houseNumber, old(rows)[i].suffix)))
    {
      var data := rows;
      rows := seq(|data|, i requires 0 <= i < |data| =>
        data[i].(fullAddress := Some(FullAddress(data[i].street, data[i].houseNumber, data[i].suffix))));
    }

    /** The loop `for col in date_columns`, converting one column of every row per pass. */
    method ConvertDates()
      modifies this
      requires Valid()
      ensures Valid() && |rows| == |old(rows)|
      ensures forall i :: 0 <= i < |rows| ==> rows[i] == old(rows)[i].(dates := rows[i].dates)
      ensures forall i, j :: 0 <= i < |rows| && 0 <= j < DateColumnCount ==>
        rows[i].dates[j] == CoerceDMY(old(rows)[i].dates[j])
    {
      var col := 0;
      while col < DateColumnCount
        invariant col <= DateColumnCount && Valid() && |rows| == |old(rows)|
        invariant forall i :: 0 <= i < |rows| ==> rows[i] == old(rows)[i].(dates := rows[i].dates)
        invariant forall i, j :: 0 <= i < |rows| && 0 <= j < DateColumnCount ==>
          rows[i].dates[j] == if j < col then CoerceDMY(old(rows)[i].dates[j]) else old(rows)[i].dates[j]
      {
        var data := rows;
        rows := seq(|data|, i requires 0 <= i < |data| && |data[i].dates| == DateColumnCount =>
          data[i].(dates := data[i].dates[col := CoerceDMY(data[i].dates[col])]));
        col := col + 1;
      }
    }

    /** `df[columns].copy()` */
    function Select(): (out: seq<CleanOrganisation>)
      reads this
      requires Valid()
      ensures |out| == |rows| && forall i :: 0 <= i < |rows| ==> out[i] == Selected(rows[i])
    {
      var data := rows;
      seq(|data|, i requires 0 <= i < |data| && |data[i].dates| == DateColumnCount => Selected(data[i]))
    }
  }

  /** `process_organizations` from the rows read to the rows written: one
      output row per input row, in order. */
  method ProcessOrganizations(input: seq<Organisation>) returns (output: seq<CleanOrganisation>)
    requires forall i :: 0 <= i < |input| ==> IsRawRow(input[i])
    ensures |output| == |input|
    ensures forall i :: 0 <= i < |input| ==> output[i] == CleanRow(input[i])
  {
    var df := new OrganisationFrame(input);
    df.AddFullAddress();
    df.ConvertDates();
    output := df.Select();
  }
}
