/** `04_geocode_vocational.py` and `04_geocode_primary.py`: the two
    function-based geocoders, one script per sector, with the same functions
    (the vocational one adds `estimate_geocoding_time`). Unlike
    the class-based geocoder, their retry loop lets provider errors escape,
    and the row loop catches them. */
module GeocodeScripts {
  import opened Common
  import opened Geocoding

  /** `geocode_with_retries`: None when no location was obtained, an exception
      (Err) when the provider raised something other than a timeout or quota. */
  method GeocodeWithRetries(provider: Provider, address: string, retries: nat, first: nat)
    returns (result: Result<Option<Coord>, string>, calls: nat)
    ensures var r := Retry(provider, address, retries, 0, first);
      calls == r.calls
      && (result.Err? <==> r.ending.ProviderError?)
      && (result.Ok? && result.value.Some? <==> r.ending.Located?)
      && (r.ending.Located? ==> result.value.value == r.ending.location)
    ensures calls <= retries
  {
    var ending, n, waits := RetryLoop(provider, address, retries, first);
    calls := n;
    if ending.ProviderError? {
      result := Err(ending.message);
    } else if ending.Located? {
      result := Ok(Some(ending.location));
    } else {
      result := Ok(None);
    }
  }

  /** `geocode_data`: one row per address in order; an escaped provider error
      still appends a row, with null coordinates. */
  method GeocodeData(provider: Provider, addresses: seq<string>, first: nat)
    returns (results: seq<GeoRow>, calls: nat)
    ensures Batch(results, calls) == GeocodeAll(provider, addresses, first)
  {
    results, calls := [], 0;
    var i := 0;
    while i < |addresses|
      invariant i <= |addresses|
      invariant Batch(results, calls) == GeocodePrefix(provider, addresses, first, i)
    {
      var address := addresses[i];
      assert first + calls == StartOf(provider, addresses, first, i);
      var result, n := GeocodeWithRetries(provider, address, DefaultRetries, first + calls);
      var row;
      match result {
        case Ok(location) =>
          if location.Some? {
            row := GeoRow(address, Some(location.value.latitude), Some(location.value.longitude));
          } else {
            row := GeoRow(address, None, None);
          }
        case Err(_) =>
          row := GeoRow(address, None, None);
      }
      GeocodePrefixStep(provider, addresses, first, i, if result.Ok? then result.value else None, n);
      results, calls := results + [row], calls + n;
      i := i + 1;
    }
  }

  /** `analyze_data`: False on an empty table, otherwise `full_address` is rebuilt in place. */
  method AnalyzeData(data: AddressFrame) returns (valid: bool)
    modifies data
    ensures valid <==> old(data.rows) != []
    ensures data.rows == if valid then Prepared(old(data.rows)) else old(data.rows)
  {
    valid := data.PrepareAddresses();
  }

  /** `estimate_geocoding_time` on whole seconds: the total split into hours,
      minutes and seconds. The script only prints this estimate, and its
      `main` never calls the function. */
  function EstimateGeocodingTime(recordCount: nat, secondsPerRecord: nat): (t: (nat, nat, nat))
    ensures t.0 * 3600 + t.1 * 60 + t.2 == recordCount * secondsPerRecord
    ensures t.1 < 60 && t.2 < 60
  {
    var total := recordCount * secondsPerRecord;
    var hours, remainder := total / 3600, total % 3600;
    (hours, remainder / 60, remainder % 60)
  }

  /** `main`: nothing is written when the input file cannot be loaded (None)
      or is empty; otherwise the geocoded table of the rebuilt addresses,
      which has a row per input row and so is never empty. */
  method RunGeocoding(provider: Provider, loaded: Option<seq<AddressRow>>) returns (written: Option<seq<GeoRow>>)
    ensures written.Some? <==> loaded.Some? && loaded.value != []
    ensures written.Some? ==> written.value == GeocodeAll(provider, Addresses(Prepared(loaded.value)), 0).rows
  {
    if loaded.None? {
      return None;
    }
    var data := new AddressFrame(loaded.value);
    var valid := AnalyzeData(data);
    if !valid {
      return None;
    }
    var geocodedData, calls := GeocodeData(provider, Addresses(data.rows), 0);
    written := if geocodedData != [] then Some(geocodedData) else None;
  }
}
