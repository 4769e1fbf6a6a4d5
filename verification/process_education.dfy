/** `02_process_education.py`: the education programmes register gets its
    three date columns read as `%d-%m-%Y` and an `education_sector` column
    derived from `Onderwijssector`; every column is kept. */
module ProcessEducation {
  import opened Common
  import opened Dates

  /** `sector_mapping`: the four sector codes and their English names. */
  const SectorMapping: map<string, string> :=
    map["PO" := "primary", "VO" := "secondary", "MBO" := "vocational", "HO" := "higher"]

  /** `Series.map(sector_mapping)`: a code outside the dictionary, or a null
      code, gives a null sector. */
  function EducationSector(code: Option<string>): (r: Option<string>)
    ensures r.Some? <==> code.Some? && code.value in {"PO", "VO", "MBO", "HO"}
    ensures r.Some? ==> r.value in {"primary", "secondary", "vocational", "higher"}
  {
    if code.Some? && code.value in SectorMapping then Some(SectorMapping[code.value]) else None
  }

  /** No two codes share a sector name, so the new column determines the code. */
  lemma EducationSectorInjective(a: Option<string>, b: Option<string>)
    requires EducationSector(a).Some? && EducationSector(a) == EducationSector(b)
    ensures a == b
  {
  }

  /** One programme: `Onderwijssector`, the date cells of Begindatum,
      Einddatum and `Datum laatste wijziging` in that order, every other
      column as read, and `education_sector` (None until it is created). */
  datatype Programme = Programme(
    sectorCode: Option<string>,
    dates: seq<DateField>,
    other: seq<Option<string>>,
    educationSector: Option<string>)

  const DateColumnCount: nat := 3

  /** The register as the script's DataFrame `df`. */
  class EducationFrame {
    var rows: seq<Programme>

    /** Every row has its three date cells. */
    predicate Valid()
      reads this
    {
      forall i :: 0 <= i < |rows| ==> |rows[i].dates| == DateColumnCount
    }

    constructor (rows: seq<Programme>)
      ensures this.rows == rows
    {
      this.rows := rows;
    }

    /** The loop `for col in date_columns`, converting one column of every row per pass. */
    method ConvertDates()
      modifies this
      requires Valid()
      ensures Valid() && |rows| == |old(rows)|
      ensures forall i :: 0 <= i < |rows| ==> rows[i] == old(rows)[i].(dates := rows[i].dates)
      ensures forall i, j :: 0 <= i < |rows| && 0 <= j < DateColumnCount ==>
        rows[i].dates[j] == CoerceDMY(old(rows)[i].dates[j])
    {
      var col := 0;
      while col < DateColumnCount
        invariant col <= DateColumnCount && Valid() && |rows| == |old(rows)|
        invariant forall i :: 0 <= i < |rows| ==> rows[i] == old(rows)[i].(dates := rows[i].dates)
        invariant forall i, j :: 0 <= i < |rows| && 0 <= j < DateColumnCount ==>
          rows[i].dates[j] == if j < col then CoerceDMY(old(rows)[i].dates[j]) else old(rows)[i].dates[j]
      {
        var data := rows;
        rows := seq(|data|, i requires 0 <= i < |data| && |data[i].dates| == DateColumnCount =>
          data[i].(dates := data[i].dates[col := CoerceDMY(data[i].dates[col])]));
        col := col + 1;
      }
    }

    /** `df['education_sector'] = df['Onderwijssector'].map(sector_mapping)` */
    method AddEducationSector()
      modifies this
      ensures |rows| == |old(rows)|
      ensures forall i :: 0 <= i < |rows| ==>
        rows[i] == old(rows)[i].(educationSector := EducationSector(old(rows)[i].sectorCode))
    {
      var data := rows;
      rows := seq(|data|, i requires 0 <= i < |data| =>
        data[i].(educationSector := EducationSector(data[i].sectorCode)));
    }
  }

  /** `process_education_data` from the rows read to the rows written: the same
      rows in the same order, dates converted, the sector column added, every
      other column untouched. */
  method ProcessEducation(input: seq<Programme>) returns (output: seq<Programme>)
    requires forall i :: 0 <= i < |input| ==> |input[i].dates| == DateColumnCount
    ensures |output| == |input|
    ensures forall i :: 0 <= i < |input| ==>
      output[i].sectorCode == input[i].sectorCode && output[i].other == input[i].other
      && output[i].educationSector == EducationSector(input[i].sectorCode)
      && |output[i].dates| == DateColumnCount
      && forall j :: 0 <= j < DateColumnCount ==> output[i].dates[j] == CoerceDMY(input[i].dates[j])
  {
    var df := new EducationFrame(input);
    df.ConvertDates();
    df.AddEducationSector();
    output := df.rows;
  }
}
