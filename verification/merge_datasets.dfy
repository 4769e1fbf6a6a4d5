/** `03_merge_datasets.py`: the cleaned organisations table is split into one
    table per education sector by `CODE_SOORT`; each sector table is cleaned
    (`clean_and_standardize`), tagged with its sector and given a temporal status. */
module MergeDatasets {
  import opened Common
  import opened Text
  import opened Dates
  import Temporal
  import ProcessOrganizations

  /** A cell of a table read back from CSV: null, text, or a day once a date
      column has been converted. */
  datatype Cell = Missing | Text(text: string) | Day(date: Stamp)

  /** The columns the script names, each written as its CSV header; every
      other column of the table is `Other` with its header. */
  datatype Column =
    | DtInBedrijf | DtUitBedrijf | DtBeginRecord | DtEindeRecord
    | FullAddress | NaamStraatVest | NrHuisVest | NrHuisToevVest | PostcodeVest
    | PostcodeCleaned | HouseNumber | CodeSoort | CodeFunctie
    | EducationSector | LocationType | FunctionType | TemporalStatusColumn
    | Other(header: string)

  /** A row maps column names to cells; every row of a table has the same columns. */
  type Row = map<Column, Cell>

  /** `astype(str)`: a null cell becomes `"nan"`, a day its ISO date (every
      converted value is a midnight, so pandas prints the date alone). */
  function AsText(c: Cell): (s: string)
    ensures c.Missing? ==> s == "nan"
    ensures c.Text? ==> s == c.text
  {
    match c
    case Missing => "nan"
    case Text(t) => t
    case Day(d) => FormatISO(d)
  }

  // ----------------------------------------------------- clean_and_standardize

  const DateColumns: seq<Column> := [DtInBedrijf, DtUitBedrijf, DtBeginRecord, DtEindeRecord]

  predicate IsDateColumn(c: Column) {
    c.DtInBedrijf? || c.DtUitBedrijf? || c.DtBeginRecord? || c.DtEindeRecord?
  }

  lemma DateColumnsMembers()
    ensures forall c :: c in DateColumns <==> IsDateColumn(c)
  {
    assert DateColumns[0] == DtInBedrijf && DateColumns[1] == DtUitBedrijf;
    assert DateColumns[2] == DtBeginRecord && DateColumns[3] == DtEindeRecord;
  }

  /** `pd.to_datetime(cell, errors='coerce')` with pandas inferring the format;
      `infer` stands for what that inference reads from a text. */
  function CoerceCell(c: Cell, infer: string -> Option<Stamp>): (r: Cell)
    ensures !r.Text?
    ensures c.Text? ==> (r.Day? <==> infer(c.text).Some?) && (r.Day? ==> r.date == infer(c.text).value)
    ensures !c.Text? ==> r == c
  {
    match c
    case Text(t) => if infer(t).Some? then Day(infer(t).value) else Missing
    case _ => c
  }

  /** A row with the date columns among `cols` converted. */
  function CoercedIn(r: Row, cols: seq<Column>, infer: string -> Option<Stamp>): (out: Row)
    ensures out.Keys == r.Keys
    ensures forall c :: c in r ==> out[c] == if c in cols then CoerceCell(r[c], infer) else r[c]
  {
    map c | c in r.Keys :: if c in cols then CoerceCell(r[c], infer) else r[c]
  }

  /** `df[col] = pd.to_datetime(df[col], errors='coerce')` on every row that has `col`. */
  function ConvertColumn(rows: seq<Row>, col: Column, infer: string -> Option<Stamp>): (out: seq<Row>)
    ensures |out| == |rows| && forall i :: 0 <= i < |rows| ==> out[i].Keys == rows[i].Keys
  {
    seq(|rows|, i requires 0 <= i < |rows| => if col in rows[i] then rows[i][col := CoerceCell(rows[i][col], infer)] else rows[i])
  }

  /** One pass of the date loop: converting the next date column of rows whose
      earlier date columns are converted leaves one more column converted. */
  lemma ConvertColumnStep(rows: seq<Row>, orig: seq<Row>, k: nat, infer: string -> Option<Stamp>)
    requires k < |DateColumns| && |rows| == |orig|
    requires forall i :: 0 <= i < |rows| ==> rows[i] == CoercedIn(orig[i], DateColumns[..k], infer)
    ensures forall i :: 0 <= i < |rows| ==> ConvertColumn(rows, DateColumns[k], infer)[i] == CoercedIn(orig[i], DateColumns[..k + 1], infer)
  {
    var col := DateColumns[k];
    assert DateColumns[..k + 1] == DateColumns[..k] + [col];
    assert col !in DateColumns[..k];
    forall i | 0 <= i < |rows|
      ensures ConvertColumn(rows, col, infer)[i] == CoercedIn(orig[i], DateColumns[..k + 1], infer)
    {
      var a, b := CoercedIn(orig[i], DateColumns[..k + 1], infer), ConvertColumn(rows, col, infer)[i];
      assert a.Keys == b.Keys;
      forall c | c in a.Keys ensures a[c] == b[c] {
        assert (c in DateColumns[..k + 1]) == (c in DateColumns[..k] || c == col);
      }
    }
  }

  /** `full_address` built from the three address columns, each through `astype(str)`
      (the `fillna('')` after it never applies, so a null part reads `"nan"`). */
  function AddressText(street: Cell, number: Cell, suffix: Cell): (s: string)
    ensures |s| == |AsText(street)| + |AsText(number)| + |AsText(suffix)| + 2
  {
    AsText(street) + " " + AsText(number) + " " + AsText(suffix)
  }

  /** With every part present as text, the address is the one the
      organisations step builds. */
  lemma AddressTextAgrees(street: string, number: string, suffix: string)
    ensures AddressText(Text(street), Text(number), Text(suffix))
      == ProcessOrganizations.FullAddress(Some(street), ProcessOrganizations.NumberText(number), Some(suffix))
  {
  }

  /** With a part missing they differ: `"nan"` takes the place of the empty string. */
  lemma AddressTextMissingStreet(number: string, suffix: string)
    ensures AddressText(Missing, Text(number), Text(suffix)) == "nan " + number + " " + suffix
    ensures AddressText(Missing, Text(number), Text(suffix))
      != ProcessOrganizations.FullAddress(None, ProcessOrganizations.NumberText(number), Some(suffix))
  {
    var a := AddressText(Missing, Text(number), Text(suffix));
    assert a[0] == 'n';
  }

  /** With every part missing, each reads `"nan"`. */
  lemma AddressTextAllMissing()
    ensures AddressText(Missing, Missing, Missing) == "nan nan nan"
  {
  }

  /** `postcode_cleaned`: the text of the postcode, lower-cased, with every
      space removed. */
  function CleanPostcode(p: Cell): (r: string)
    ensures NoUpper(r) && forall i :: 0 <= i < |r| ==> r[i] != ' '
    ensures p.Missing? ==> r == "nan"
    ensures r == RemoveSpaces(Lower(AsText(p)))
  {
    RemoveSpacesNoUpper(Lower(AsText(p)));
    assert RemoveSpaces("nan") == "nan" by {
      assert "nan"[1..] == "an" && "an"[1..] == "n" && "n"[1..] == [];
    }
    assert Lower("nan") == "nan";
    RemoveSpaces(Lower(AsText(p)))
  }

  /** Cleaning a cleaned postcode changes nothing. */
  lemma CleanPostcodeIdempotent(p: Cell)
    ensures CleanPostcode(Text(CleanPostcode(p))) == CleanPostcode(p)
  {
    var r := CleanPostcode(p);
    LowerIdentity(r);
    RemoveSpacesIdentity(r);
  }

  /** A register postcode written `1234 AB` cleans to `1234ab`. */
  lemma CleanPostcodeExample()
    ensures CleanPostcode(Text("1234 AB")) == "1234ab"
  {
    RemoveInnerSpace("1234", "ab");
    assert Lower("1234 AB") == "1234" + " " + "ab";
  }

  /** Two postcodes that differ only in case and spacing clean to the same key. */
  lemma CleanPostcodeIgnoresCaseAndSpaces(a: string, b: string)
    requires RemoveSpaces(Lower(a)) == RemoveSpaces(Lower(b))
    ensures CleanPostcode(Text(a)) == CleanPostcode(Text(b))
  {
  }

  /** `str.extract(r'(\d+)')` on the text of the house number: the first run of
      digits, or null when there is none (a null cell reads `"nan"`, which has none). */
  function HouseNumberCell(nr: Cell): (r: Cell)
    ensures r.Day? == false
    ensures r.Missing? <==> forall m :: 0 <= m < |AsText(nr)| ==> !IsDigit(AsText(nr)[m])
    ensures r.Text? ==> exists k, j :: LeftmostDigitRun(AsText(nr), k, j) && r.text == AsText(nr)[k..j]
  {
    match FirstDigitRun(AsText(nr))
    case None => Missing
    case Some(run) => Text(run)
  }

  /** The three columns `full_address` is built from. */
  predicate HasStreetColumns(columns: set<Column>) {
    NaamStraatVest in columns && NrHuisVest in columns && NrHuisToevVest in columns
  }

  /** `clean_and_standardize` raises KeyError exactly when it has to build
      `full_address` and a part of it is missing. */
  predicate CanClean(columns: set<Column>) {
    FullAddress in columns || HasStreetColumns(columns)
  }

  /** The columns after `clean_and_standardize`. */
  function CleanedColumns(columns: set<Column>): (out: set<Column>)
    ensures columns <= out && FullAddress in out
    ensures PostcodeCleaned in out <==> PostcodeCleaned in columns || PostcodeVest in columns
    ensures HouseNumber in out <==> HouseNumber in columns || NrHuisVest in columns
  {
    columns + {FullAddress}
    + (if PostcodeVest in columns then {PostcodeCleaned} else {})
    + (if NrHuisVest in columns then {HouseNumber} else {})
  }

  /** `full_address` after the `if 'full_address' not in df.columns` branch. */
  function WithAddress(d: Row): (a: Row)
    requires CanClean(d.Keys)
    ensures a.Keys == d.Keys + {FullAddress}
    ensures forall c :: c in d && c != FullAddress ==> a[c] == d[c]
    ensures !(FullAddress in d) ==> a[FullAddress] == Text(AddressText(d[NaamStraatVest], d[NrHuisVest], d[NrHuisToevVest]))
  {
    if FullAddress in d then d
    else d[FullAddress := Text(AddressText(d[NaamStraatVest], d[NrHuisVest], d[NrHuisToevVest]))]
  }

  /** `postcode_cleaned` and `house_number`, each added when its source column exists. */
  function WithKeys(a: Row): (k: Row)
    ensures k.Keys == a.Keys + (if PostcodeVest in a then {PostcodeCleaned} else {})
      + (if NrHuisVest in a then {HouseNumber} else {})
    ensures forall c :: c in a && c != PostcodeCleaned && c != HouseNumber ==> k[c] == a[c]
    ensures PostcodeVest in a ==> k[PostcodeCleaned] == Text(CleanPostcode(a[PostcodeVest]))
    ensures NrHuisVest in a ==> k[HouseNumber] == HouseNumberCell(a[NrHuisVest])
  {
    var p := if PostcodeVest in a then a[PostcodeCleaned := Text(CleanPostcode(a[PostcodeVest]))] else a;
    if NrHuisVest in p then p[HouseNumber := HouseNumberCell(p[NrHuisVest])] else p
  }

  /** One row after `clean_and_standardize`. */
  function Cleaned(r: Row, infer: string -> Option<Stamp>): (out: Row)
    requires CanClean(r.Keys)
    ensures out.Keys == CleanedColumns(r.Keys)
  {
    WithKeys(WithAddress(CoercedIn(r, DateColumns, infer)))
  }

  /** An existing `full_address` is left as it is; otherwise it is built from
      the three address columns. */
  lemma CleanedFullAddress(r: Row, infer: string -> Option<Stamp>)
    requires CanClean(r.Keys)
    ensures FullAddress in r ==> Cleaned(r, infer)[FullAddress] == r[FullAddress]
    ensures FullAddress !in r ==>
      Cleaned(r, infer)[FullAddress] == Text(AddressText(r[NaamStraatVest], r[NrHuisVest], r[NrHuisToevVest]))
  {
    var d := CoercedIn(r, DateColumns, infer);
    var a := WithAddress(d);
    assert Cleaned(r, infer) == WithKeys(a);
    assert WithKeys(a)[FullAddress] == a[FullAddress];
    assert FullAddress !in DateColumns && NaamStraatVest !in DateColumns by { DateColumnsMembers(); }
    assert NrHuisVest !in DateColumns && NrHuisToevVest !in DateColumns by { DateColumnsMembers(); }
    if FullAddress in r {
      assert a[FullAddress] == d[FullAddress] == r[FullAddress];
    } else {
      assert d[NaamStraatVest] == r[NaamStraatVest] && d[NrHuisVest] == r[NrHuisVest] && d[NrHuisToevVest] == r[NrHuisToevVest];
    }
  }

  /** The derived key columns come from the postcode and house number as read. */
  lemma CleanedKeys(r: Row, infer: string -> Option<Stamp>)
    requires CanClean(r.Keys)
    ensures PostcodeVest in r ==> Cleaned(r, infer)[PostcodeCleaned] == Text(CleanPostcode(r[PostcodeVest]))
    ensures NrHuisVest in r ==> Cleaned(r, infer)[HouseNumber] == HouseNumberCell(r[NrHuisVest])
  {
    var a := WithAddress(CoercedIn(r, DateColumns, infer));
    DateColumnsMembers();
    if PostcodeVest in r {
      assert a[PostcodeVest] == r[PostcodeVest];
    }
    if NrHuisVest in r {
      assert a[NrHuisVest] == r[NrHuisVest];
    }
  }

  /** Every date column present is converted, without raising. */
  lemma CleanedDates(r: Row, infer: string -> Option<Stamp>, c: Column)
    requires CanClean(r.Keys) && c in DateColumns && c in r
    ensures Cleaned(r, infer)[c] == CoerceCell(r[c], infer) && !Cleaned(r, infer)[c].Text?
  {
    assert c != FullAddress && c != PostcodeCleaned && c != HouseNumber by { DateColumnsMembers(); }
    CleanedKeeps(r, infer, c);
  }

  /** Cleaning changes no column other than the address and the two keys. */
  lemma CleanedKeeps(r: Row, infer: string -> Option<Stamp>, c: Column)
    requires CanClean(r.Keys) && c in r && c != FullAddress && c != PostcodeCleaned && c != HouseNumber
    ensures Cleaned(r, infer)[c] == CoercedIn(r, DateColumns, infer)[c]
  {
  }

  // ------------------------------------------------------------------ tagging

  /** The `temporal_status` lambda: Active while the end date is null or after
      now, otherwise Historical; comparing a text with a timestamp raises. */
  function TemporalStatus(end: Cell, now: Stamp): (r: Option<string>)
    ensures r.None? <==> end.Text?
    ensures r.Some? ==> (r.value == "Active" <==> Temporal.StillOperating(if end.Day? then Some(end.date) else None, now))
    ensures r.Some? ==> (r.value == "Historical" <==> !Temporal.StillOperating(if end.Day? then Some(end.date) else None, now))
  {
    match end
    case Missing => Some("Active")
    case Day(d) => if Before(now, d) then Some("Active") else Some("Historical")
    case Text(_) => None
  }

  const TagColumns: set<Column> := {EducationSector, LocationType, FunctionType, TemporalStatusColumn}

  /** The tagging raises KeyError without `CODE_FUNCTIE`, and the status lambda
      raises on a row without `DT_UIT_BEDRIJF` or with text in it. On a frame
      with no rows `apply` calls the lambda once on an all-null probe row: a
      missing `DT_UIT_BEDRIJF` raises there too, `apply` then hands back the
      whole frame, and assigning that to the one column raises, so the column
      is needed whether or not the sector has rows. */
  predicate CanTag(columns: set<Column>, rows: seq<Row>) {
    CodeSoort in columns && CodeFunctie in columns && DtUitBedrijf in columns
    && forall i :: 0 <= i < |rows| && DtUitBedrijf in rows[i] ==> !rows[i][DtUitBedrijf].Text?
  }

  /** One row after the tagging. */
  function Tagged(r: Row, sector: Sector, now: Stamp): (out: Row)
    requires CodeSoort in r && CodeFunctie in r && DtUitBedrijf in r && !r[DtUitBedrijf].Text?
    ensures out.Keys == r.Keys + TagColumns
    ensures out[EducationSector] == Text(SectorName(sector))
    ensures out[LocationType] == r[CodeSoort] && out[FunctionType] == r[CodeFunctie]
    ensures out[TemporalStatusColumn] == Text(TemporalStatus(r[DtUitBedrijf], now).value)
  {
    r[EducationSector := Text(SectorName(sector))][LocationType := r[CodeSoort]][FunctionType := r[CodeFunctie]]
      [TemporalStatusColumn := Text(TemporalStatus(r[DtUitBedrijf], now).value)]
  }

  // ------------------------------------------------------------- the frame

  /** A sector table as the script's DataFrame `sector_orgs`. */
  class SectorFrame {
    var columns: set<Column>
    var rows: seq<Row>

    /** Every row has exactly the table's columns. */
    predicate Valid()
      reads this
    {
      forall i :: 0 <= i < |rows| ==> rows[i].Keys == columns
    }

    constructor (columns: set<Column>, rows: seq<Row>)
      ensures this.columns == columns && this.rows == rows
    {
      this.columns := columns;
      this.rows := rows;
    }

    /** `df[name] = values`: a column set or added, the rows otherwise unchanged. */
    method SetColumn(name: Column, values: seq<Cell>)
      modifies this
      requires Valid() && |values| == |rows|
      ensures Valid() && columns == old(columns) + {name} && |rows| == |old(rows)|
      ensures forall i :: 0 <= i < |rows| ==> rows[i] == old(rows)[i][name := values[i]]
    {
      var data := rows;
      rows := seq(|data|, i requires 0 <= i < |data| => data[i][name := values[i]]);
      columns := columns + {name};
    }

    /** The loop `for col in date_columns: if col in df.columns: ...`. */
    method ConvertDates(infer: string -> Option<Stamp>)
      modifies this
      requires Valid()
      ensures Valid() && columns == old(columns) && |rows| == |old(rows)|
      ensures forall i :: 0 <= i < |rows| ==> rows[i] == CoercedIn(old(rows)[i], DateColumns, infer)
    {
      var k := 0;
      while k < |DateColumns|
        invariant k <= |DateColumns| && Valid() && columns == old(columns) && |rows| == |old(rows)|
        invariant forall i :: 0 <= i < |rows| ==> rows[i] == CoercedIn(old(rows)[i], DateColumns[..k], infer)
      {
        var col := DateColumns[k];
        ConvertColumnStep(rows, old(rows), k, infer);
        if col in columns {
          rows := ConvertColumn(rows, col, infer);
        } else {
          assert rows == ConvertColumn(rows, col, infer);
        }
        k := k + 1;
      }
      assert DateColumns[..k] == DateColumns;
    }

    /** `clean_and_standardize(df)`: false where it raises KeyError. */
    method CleanAndStandardize(infer: string -> Option<Stamp>) returns (ok: bool)
      modifies this
      requires Valid()
      ensures ok <==> CanClean(old(columns))
      ensures ok ==> Valid() && columns == CleanedColumns(old(columns)) && |rows| == |old(rows)|
      ensures ok ==> forall i :: 0 <= i < |rows| ==> rows[i] == Cleaned(old(rows)[i], infer)
    {
      ConvertDates(infer);
      if FullAddress !in columns {
        if !HasStreetColumns(columns) {
          return false;
        }
        var data := rows;
        SetColumn(FullAddress, seq(|data|, i requires 0 <= i < |data| && HasStreetColumns(data[i].Keys) =>
          Text(AddressText(data[i][NaamStraatVest], data[i][NrHuisVest], data[i][NrHuisToevVest]))));
      }
      if PostcodeVest in columns {
        var data := rows;
        SetColumn(PostcodeCleaned, seq(|data|, i requires 0 <= i < |data| && PostcodeVest in data[i] =>
          Text(CleanPostcode(data[i][PostcodeVest]))));
      }
      if NrHuisVest in columns {
        var data := rows;
        SetColumn(HouseNumber, seq(|data|, i requires 0 <= i < |data| && NrHuisVest in data[i] =>
          HouseNumberCell(data[i][NrHuisVest])));
      }
      ok := true;
    }

    /** Lines 101-112: sector, location and function type, temporal status;
        false where they raise. */
    method Tag(sector: Sector, now: Stamp) returns (ok: bool)
      modifies this
      requires Valid()
      ensures ok <==> old(CanTag(columns, rows))
      ensures ok ==> Valid() && columns == old(columns) + TagColumns && |rows| == |old(rows)|
      ensures ok ==> forall i :: 0 <= i < |rows| ==> rows[i] == Tagged(old(rows)[i], sector, now)
    {
      if !CanTag(columns, rows) {
        return false;
      }
      var data := rows;
      SetColumn(EducationSector, seq(|data|, _ => Text(SectorName(sector))));
      SetColumn(LocationType, seq(|data|, i requires 0 <= i < |data| && CodeSoort in data[i] => data[i][CodeSoort]));
      SetColumn(FunctionType, seq(|data|, i requires 0 <= i < |data| && CodeFunctie in data[i] => data[i][CodeFunctie]));
      SetColumn(TemporalStatusColumn, seq(|data|, i requires 0 <= i < |data| && DtUitBedrijf in data[i] && !data[i][DtUitBedrijf].Text? =>
        Text(TemporalStatus(data[i][DtUitBedrijf], now).value)));
      ok := true;
    }
  }

  // ------------------------------------------------------------ the sectors

  /** The four entries of `sectors`, in the order the loop visits them. */
  datatype Sector = Primary | Secondary | Vocational | Higher

  const Sectors: seq<Sector> := [Primary, Secondary, Vocational, Higher]

  /** The name written in `education_sector` and in the output file name. */
  function SectorName(s: Sector): (name: string)
    ensures name in {"primary", "secondary", "vocational", "higher"}
  {
    match s
    case Primary => "primary"
    case Secondary => "secondary"
    case Vocational => "vocational"
    case Higher => "higher"
  }

  /** `sector_codes.get(sector, [])`; every sector of the loop has an entry,
      so the default never applies. */
  function SectorCodes(s: Sector): (codes: seq<string>)
    ensures |codes| >= 3
  {
    match s
    case Primary => ["BAS", "SBAS", "SPEC", "VST"]
    case Secondary => ["VOS", "PROS", "AOCV", "VSTS", "VSTZ"]
    case Vocational => ["MBO", "VE", "ILOC"]
    case Higher => ["HBO", "WO", "LOC"]
  }

  /** No code belongs to two sectors. */
  lemma SectorCodesDisjoint(a: Sector, b: Sector, code: string)
    requires code in SectorCodes(a) && code in SectorCodes(b)
    ensures a == b
  {
  }

  /** `df['CODE_SOORT'].isin(codes)` for one row: a null code is in no list. */
  predicate InSector(r: Row, codes: seq<string>) {
    CodeSoort in r && r[CodeSoort].Text? && r[CodeSoort].text in codes
  }

  /** `orgs_df[orgs_df['CODE_SOORT'].isin(codes)]`: the matching rows in their order. */
  function SectorRows(rows: seq<Row>, codes: seq<string>): (out: seq<Row>)
    ensures |out| <= |rows|
    ensures forall r :: r in out <==> r in rows && InSector(r, codes)
    decreases |rows|
  {
    if rows == [] then []
    else
      var rest := SectorRows(rows[1..], codes);
      assert forall r :: r in rows <==> r == rows[0] || r in rows[1..];
      if InSector(rows[0], codes) then [rows[0]] + rest else rest
  }

  /** The filter keeps the relative order of rows: it treats the two halves of
      a table independently. */
  lemma {:induction false} SectorRowsAppend(a: seq<Row>, b: seq<Row>, codes: seq<string>)
    ensures SectorRows(a + b, codes) == SectorRows(a, codes) + SectorRows(b, codes)
    decreases |a|
  {
    if a == [] {
      assert a + b == b;
    } else {
      assert (a + b)[0] == a[0];
      assert (a + b)[1..] == a[1..] + b;
      SectorRowsAppend(a[1..], b, codes);
    }
  }

  /** An organisation lands in at most one sector table. */
  lemma AtMostOneSector(rows: seq<Row>, r: Row, a: Sector, b: Sector)
    requires r in SectorRows(rows, SectorCodes(a)) && r in SectorRows(rows, SectorCodes(b))
    ensures a == b
  {
    SectorCodesDisjoint(a, b, r[CodeSoort].text);
  }

  /** A sector table as written: its columns and rows. */
  datatype Table = Table(sector: Sector, columns: set<Column>, rows: seq<Row>)

  function CleanedRows(rows: seq<Row>, infer: string -> Option<Stamp>): (out: seq<Row>)
    requires forall i :: 0 <= i < |rows| ==> CanClean(rows[i].Keys)
  {
    seq(|rows|, i requires 0 <= i < |rows| => Cleaned(rows[i], infer))
  }

  function TaggedRows(rows: seq<Row>, sector: Sector, now: Stamp): (out: seq<Row>)
    requires forall i :: 0 <= i < |rows| ==>
      (CodeSoort in rows[i] && CodeFunctie in rows[i] && DtUitBedrijf in rows[i] && !rows[i][DtUitBedrijf].Text?)
  {
    seq(|rows|, i requires 0 <= i < |rows| => Tagged(rows[i], sector, now))
  }

  /** Rows that are, one by one, the cleaned rows of `rows`. */
  lemma {:induction false} CleanedRowsOf(rows: seq<Row>, out: seq<Row>, infer: string -> Option<Stamp>)
    requires forall i :: 0 <= i < |rows| ==> CanClean(rows[i].Keys)
    requires |out| == |rows| && forall i :: 0 <= i < |rows| ==> out[i] == Cleaned(rows[i], infer)
    ensures out == CleanedRows(rows, infer)
  {
  }

  /** Rows that are, one by one, the tagged rows of `rows`. */
  lemma {:induction false} TaggedRowsOf(rows: seq<Row>, out: seq<Row>, sector: Sector, now: Stamp)
    requires forall i :: 0 <= i < |rows| ==>
      (CodeSoort in rows[i] && CodeFunctie in rows[i] && DtUitBedrijf in rows[i] && !rows[i][DtUitBedrijf].Text?)
    requires |out| == |rows| && forall i :: 0 <= i < |rows| ==> out[i] == Tagged(rows[i], sector, now)
    ensures out == TaggedRows(rows, sector, now)
  {
  }

  /** What the loop body produces for one sector, or None where it raises. */
  function SectorTable(columns: set<Column>, rows: seq<Row>, sector: Sector, infer: string -> Option<Stamp>, now: Stamp): (t: Option<Table>)
    requires forall i :: 0 <= i < |rows| ==> rows[i].Keys == columns
    ensures t.Some? ==> t.value.sector == sector && |t.value.rows| <= |rows|
    ensures t.Some? ==> t.value.columns == CleanedColumns(columns) + TagColumns
    ensures t.Some? ==> CodeSoort in columns && CodeFunctie in columns && DtUitBedrijf in columns
  {
    if CodeSoort !in columns || !CanClean(columns) then None
    else
      var picked := SectorRows(rows, SectorCodes(sector));
      assert forall i :: 0 <= i < |picked| ==> picked[i] in rows;
      var cleaned := CleanedRows(picked, infer);
      var cc := CleanedColumns(columns);
      if !CanTag(cc, cleaned) then None
      else Some(Table(sector, cc + TagColumns, TaggedRows(cleaned, sector, now)))
  }

  /** Without `DT_UIT_BEDRIJF` no sector table is written, not even one whose
      sector has no organisation. */
  lemma SectorTableNeedsEndDate(columns: set<Column>, rows: seq<Row>, sector: Sector, infer: string -> Option<Stamp>, now: Stamp)
    requires forall i :: 0 <= i < |rows| ==> rows[i].Keys == columns
    requires DtUitBedrijf !in columns
    ensures SectorTable(columns, rows, sector, infer, now).None?
  {
  }

  /** `merge_datasets` after the inputs are read: the sector tables written in
      order, and whether the loop finished or an exception stopped it at the
      next sector. */
  method MergeDatasets(columns: set<Column>, rows: seq<Row>, infer: string -> Option<Stamp>, now: Stamp)
    returns (written: seq<Table>, ok: bool)
    requires forall i :: 0 <= i < |rows| ==> rows[i].Keys == columns
    ensures |written| <= |Sectors| && (ok <==> |written| == |Sectors|)
    ensures forall k :: 0 <= k < |written| ==> SectorTable(columns, rows, Sectors[k], infer, now) == Some(written[k])
    ensures !ok ==> SectorTable(columns, rows, Sectors[|written|], infer, now).None?
  {
    written := [];
    var k := 0;
    while k < |Sectors|
      invariant k <= |Sectors| && |written| == k
      invariant forall m :: 0 <= m < k ==> SectorTable(columns, rows, Sectors[m], infer, now) == Some(written[m])
    {
      var sector := Sectors[k];
      var table := ProcessSector(columns, rows, sector, infer, now);
      if table.None? {
        return written, false;
      }
      written := written + [table.value];
      k := k + 1;
    }
    ok := true;
  }

  /** The body of the sector loop: filter, clean, tag. */
  method ProcessSector(columns: set<Column>, rows: seq<Row>, sector: Sector, infer: string -> Option<Stamp>, now: Stamp)
    returns (table: Option<Table>)
    requires forall i :: 0 <= i < |rows| ==> rows[i].Keys == columns
    ensures table == SectorTable(columns, rows, sector, infer, now)
  {
    if CodeSoort !in columns {
      return None;
    }
    var picked := SectorRows(rows, SectorCodes(sector));
    assert forall i :: 0 <= i < |picked| ==> picked[i] in rows;
    var frame := new SectorFrame(columns, picked);
    var cleanedOk := frame.CleanAndStandardize(infer);
    if !cleanedOk {
      return None;
    }
    CleanedRowsOf(picked, frame.rows, infer);
    var cleaned := frame.rows;
    var tagged := frame.Tag(sector, now);
    if !tagged {
      return None;
    }
    TaggedRowsOf(cleaned, frame.rows, sector, now);
    table := Some(Table(sector, frame.columns, frame.rows));
  }
}
