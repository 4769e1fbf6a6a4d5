/** `04_geocode_locations.py`: a geocoder object per education sector that
    prepares the addresses of that sector's locations and geocodes them. */
module GeocodeLocations {
  import opened Common
  import opened Text
  import opened Geocoding

  /** What `__init__` records: the lowercased sector, the API key and the
      input and output paths derived from the sector. */
  datatype LocationGeocoder = LocationGeocoder(sector: string, apiKey: string, inputFile: string, outputFile: string)

  datatype InitError = MissingApiKey

  /** `LocationGeocoder(sector)`, with the value of `GOOGLE_API_KEY` passed in:
      raises when the key is unset or empty. */
  function NewLocationGeocoder(sector: string, apiKey: Option<string>): (r: Result<LocationGeocoder, InitError>)
    ensures r.Err? <==> apiKey.None? || apiKey.value == ""
    ensures r.Ok? ==> r.value.sector == Lower(sector) && NoUpper(r.value.sector) && r.value.apiKey == apiKey.value
    ensures r.Ok? ==> r.value.inputFile == "data/processed/final/" + r.value.sector + "_education_locations.csv"
    ensures r.Ok? ==> r.value.outputFile == "data/processed/final/geocoded_" + r.value.sector + "_locations.csv"
  {
    if apiKey.None? || apiKey.value == "" then Err(MissingApiKey)
    else
      var s := Lower(sector);
      Ok(LocationGeocoder(s, apiKey.value, "data/processed/final/" + s + "_education_locations.csv",
        "data/processed/final/geocoded_" + s + "_locations.csv"))
  }

  /** `geocode_with_retries`: every way of not getting a location, including a
      provider error, comes back as None. */
  method GeocodeWithRetries(provider: Provider, address: string, maxRetries: nat, first: nat)
    returns (location: Option<Coord>, calls: nat)
    ensures var r := Retry(provider, address, maxRetries, 0, first);
      calls == r.calls && location == LocationOf(r.ending)
    ensures location.Some? <==> exists k :: 0 <= k < calls && Answer(provider, address, first, k).Found?
    ensures calls <= maxRetries
    ensures maxRetries > 0 ==> calls >= 1
  {
    var ending, n, waits := RetryLoop(provider, address, maxRetries, first);
    calls := n;
    RetryLocatedIffFound(provider, address, maxRetries, first);
    location := if ending.Located? then Some(ending.location) else None;
  }

  /** `geocode_dataset`: one result row per address, in order; the provider's
      call numbering continues from row to row. */
  method GeocodeDataset(provider: Provider, addresses: seq<string>, first: nat)
    returns (results: seq<GeoRow>, calls: nat)
    ensures Batch(results, calls) == GeocodeAll(provider, addresses, first)
  {
    results, calls := [], 0;
    var i := 0;
    while i < |addresses|
      invariant i <= |addresses|
      invariant Batch(results, calls) == GeocodePrefix(provider, addresses, first, i)
    {
      var address := addresses[i];
      assert first + calls == StartOf(provider, addresses, first, i);
      var location, n := GeocodeWithRetries(provider, address, DefaultRetries, first + calls);
      var row := RowFor(address, location);
      GeocodePrefixStep(provider, addresses, first, i, location, n);
      results, calls := results + [row], calls + n;
      i := i + 1;
    }
  }

  /** `process`: False on a failed load or an empty table; otherwise the
      geocoded table that is written out, and True since it has a row per input row. */
  method Process(provider: Provider, loaded: Option<seq<AddressRow>>)
    returns (success: bool, written: Option<seq<GeoRow>>)
    ensures success <==> written.Some?
    ensures success <==> loaded.Some? && loaded.value != []
    ensures written.Some? ==> written.value == GeocodeAll(provider, Addresses(Prepared(loaded.value)), 0).rows
  {
    if loaded.None? {
      return false, None;
    }
    var frame := new AddressFrame(loaded.value);
    var valid := frame.PrepareAddresses();
    if !valid {
      return false, None;
    }
    var results, calls := GeocodeDataset(provider, Addresses(frame.rows), 0);
    success := results != [];
    written := if success then Some(results) else None;
  }
}
