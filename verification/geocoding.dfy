/** What the three geocoding scripts share: the provider, modelled as an oracle
    of outcomes; the retry loop of `geocode_with_retries`; the one-row-per-address
    result table; and the in-place rebuilding of `full_address` done by
    `prepare_addresses` / `analyze_data`. */
module Geocoding {
  import opened Common
  import opened Text

  // -------------------------------------------------------------- provider

  datatype Coord = Coord(latitude: real, longitude: real)

  /** One answer of `geolocator.geocode(address)`. */
  datatype Outcome =
    | Found(location: Coord)   // a Location
    | NoMatch                  // None: the provider knows no such address
    | TimedOut                 // raises GeocoderTimedOut
    | QuotaExceeded            // raises GeocoderQuotaExceeded
    | Failed(message: string)  // raises any other exception

  /** The provider: the outcome of the provider call with global sequence
      number `n` for an address. */
  type Provider = (string, nat) -> Outcome

  /** `time.sleep(1)` after a timeout, `time.sleep(60)` after a quota event. */
  const TimeoutWait: nat := 1
  const QuotaWait: nat := 60

  /** The default `max_retries` / `retries`. */
  const DefaultRetries: nat := 3

  /** How one run of the retry loop ends. */
  datatype Ending =
    | Located(location: Coord)   // returned a location
    | NotFound                   // returned None as the provider's answer
    | TimedOutOnLastAttempt      // returned None after a timeout on the last attempt
    | RanOut                     // fell off the loop (the last attempt hit the quota)
    | ProviderError(message: string)  // any other exception on some attempt

  /** The ending, the number of provider calls and the log of sleeps. */
  datatype Run = Run(ending: Ending, calls: nat, waits: seq<nat>)

  /** A call before `r` that ended with sleeping `wait`. */
  function After(wait: nat, r: Run): Run {
    Run(r.ending, r.calls + 1, [wait] + r.waits)
  }

  /** The outcome of the provider call numbered `first + k`: the `k`-th call
      of a run whose first call is numbered `first`. */
  function Answer(provider: Provider, address: string, first: nat, k: nat): Outcome {
    provider(address, first + k)
  }

  /** The retry loop from attempt `attempt` on, for a run whose first provider
      call is numbered `first`. */
  function Retry(provider: Provider, address: string, maxRetries: nat, attempt: nat, first: nat): (r: Run)
    requires attempt <= maxRetries
    ensures r.calls <= maxRetries - attempt
    ensures attempt < maxRetries ==> r.calls >= 1
    decreases maxRetries - attempt
  {
    if attempt == maxRetries then Run(RanOut, 0, [])
    else match Answer(provider, address, first, attempt)
      case Found(c) => Run(Located(c), 1, [])
      case NoMatch => Run(NotFound, 1, [])
      case TimedOut =>
        if attempt < maxRetries - 1 then After(TimeoutWait, Retry(provider, address, maxRetries, attempt + 1, first))
        else Run(TimedOutOnLastAttempt, 1, [])
      case QuotaExceeded => After(QuotaWait, Retry(provider, address, maxRetries, attempt + 1, first))
      case Failed(m) => Run(ProviderError(m), 1, [])
  }

  /** Outcomes after which the loop carries on. */
  predicate Retries(o: Outcome) { o.TimedOut? || o.QuotaExceeded? }

  /** The sleep that follows an outcome that does not end the loop. */
  function WaitAfter(o: Outcome): nat {
    if o.TimedOut? then TimeoutWait else QuotaWait
  }

  /** The full trace of a run: every call but the last timed out or hit the quota
      and was followed by a sleep, and the last call's outcome decides the ending. */
  lemma {:induction false} RetryTrace(provider: Provider, address: string, maxRetries: nat, attempt: nat, first: nat)
    requires attempt <= maxRetries
    ensures var r := Retry(provider, address, maxRetries, attempt, first);
      var last := Answer(provider, address, first, if r.calls == 0 then attempt else attempt + r.calls - 1);
      (forall k :: attempt <= k < attempt + r.calls - 1 ==> Retries(Answer(provider, address, first, k)))
      && (r.ending.RanOut? ==>
            r.calls == maxRetries - attempt && |r.waits| == r.calls && (r.calls == 0 || last.QuotaExceeded?))
      && (!r.ending.RanOut? ==> r.calls >= 1 && |r.waits| == r.calls - 1)
      && (r.ending.Located? ==> last == Found(r.ending.location))
      && (r.ending.NotFound? ==> last == NoMatch)
      && (r.ending.ProviderError? ==> last == Failed(r.ending.message))
      && (r.ending.TimedOutOnLastAttempt? ==> last == TimedOut && r.calls == maxRetries - attempt)
    decreases maxRetries - attempt
  {
    if attempt < maxRetries {
      var o := Answer(provider, address, first, attempt);
      if o.QuotaExceeded? || (o.TimedOut? && attempt < maxRetries - 1) {
        RetryTrace(provider, address, maxRetries, attempt + 1, first);
        assert Retry(provider, address, maxRetries, attempt, first)
          == After(WaitAfter(o), Retry(provider, address, maxRetries, attempt + 1, first));
      }
    }
  }

  /** The log of sleeps: the sleep after each call is the one its outcome calls for. */
  lemma {:induction false} RetryWaitLog(provider: Provider, address: string, maxRetries: nat, attempt: nat, first: nat)
    requires attempt <= maxRetries
    ensures var r := Retry(provider, address, maxRetries, attempt, first);
      forall k :: attempt <= k < attempt + |r.waits| ==> r.waits[k - attempt] == WaitAfter(Answer(provider, address, first, k))
    decreases maxRetries - attempt
  {
    if attempt < maxRetries {
      var o := Answer(provider, address, first, attempt);
      if o.QuotaExceeded? || (o.TimedOut? && attempt < maxRetries - 1) {
        RetryWaitLog(provider, address, maxRetries, attempt + 1, first);
        var r' := Retry(provider, address, maxRetries, attempt + 1, first);
        var r := Retry(provider, address, maxRetries, attempt, first);
        assert r == After(WaitAfter(o), r');
        forall k | attempt < k < attempt + |r.waits|
          ensures r.waits[k - attempt] == WaitAfter(Answer(provider, address, first, k))
        {
          assert r.waits[k - attempt] == r'.waits[k - (attempt + 1)];
        }
      }
    }
  }

  /** A run locates the address exactly when one of its calls found it. */
  lemma RetryLocatedIffFound(provider: Provider, address: string, maxRetries: nat, first: nat)
    ensures var r := Retry(provider, address, maxRetries, 0, first);
      r.ending.Located? <==> exists k :: 0 <= k < r.calls && Answer(provider, address, first, k).Found?
  {
    var r := Retry(provider, address, maxRetries, 0, first);
    RetryTrace(provider, address, maxRetries, 0, first);
    if r.ending.Located? {
      assert Answer(provider, address, first, r.calls - 1).Found?;
    } else {
      forall k | 0 <= k < r.calls ensures !Answer(provider, address, first, k).Found? {
        if k < r.calls - 1 {
          assert Retries(Answer(provider, address, first, k));
        }
      }
    }
  }

  /** An answer that is not an exception ends the loop after that one call. */
  lemma RetryAnswerReturnsAtOnce(provider: Provider, address: string, maxRetries: nat, first: nat)
    requires maxRetries >= 1
    requires Answer(provider, address, first, 0).Found? || Answer(provider, address, first, 0).NoMatch?
    ensures var r := Retry(provider, address, maxRetries, 0, first);
      r.calls == 1 && r.waits == []
      && (r.ending.Located? <==> Answer(provider, address, first, 0).Found?)
  {
  }

  /** How many sleeps in a log have length `w`. */
  function CountWaits(log: seq<nat>, w: nat): (n: nat)
    ensures n <= |log|
  {
    if log == [] then 0 else (if log[0] == w then 1 else 0) + CountWaits(log[1..], w)
  }

  /** At most `maxRetries - 1` one-unit sleeps: a timeout on the last attempt returns. */
  lemma {:induction false} RetryTimeoutWaits(provider: Provider, address: string, maxRetries: nat, attempt: nat, first: nat)
    requires attempt < maxRetries
    ensures CountWaits(Retry(provider, address, maxRetries, attempt, first).waits, TimeoutWait) <= maxRetries - attempt - 1
    decreases maxRetries - attempt
  {
    var o := Answer(provider, address, first, attempt);
    if o.QuotaExceeded? || (o.TimedOut? && attempt < maxRetries - 1) {
      var r' := Retry(provider, address, maxRetries, attempt + 1, first);
      var r := Retry(provider, address, maxRetries, attempt, first);
      assert r.waits[1..] == r'.waits;
      if attempt + 1 < maxRetries {
        RetryTimeoutWaits(provider, address, maxRetries, attempt + 1, first);
      }
    }
  }

  /** A quota event on every attempt uses every attempt, sleeps 60 units after
      each, and falls off the loop. */
  lemma {:induction false} RetryAllQuota(provider: Provider, address: string, maxRetries: nat, attempt: nat, first: nat)
    requires attempt <= maxRetries
    requires forall k :: attempt <= k < maxRetries ==> Answer(provider, address, first, k) == QuotaExceeded
    ensures var r := Retry(provider, address, maxRetries, attempt, first);
      r.ending == RanOut && r.calls == maxRetries - attempt
      && |r.waits| == maxRetries - attempt && forall k :: 0 <= k < |r.waits| ==> r.waits[k] == QuotaWait
    decreases maxRetries - attempt
  {
    if attempt < maxRetries {
      RetryAllQuota(provider, address, maxRetries, attempt + 1, first);
    }
  }

  /** Three timeouts in a row with the default three attempts: give up after
      three calls and two one-unit sleeps. */
  lemma RetryThreeTimeouts(provider: Provider, address: string, first: nat)
    requires forall k :: 0 <= k < 3 ==> Answer(provider, address, first, k) == TimedOut
    ensures Retry(provider, address, DefaultRetries, 0, first) == Run(TimedOutOnLastAttempt, 3, [1, 1])
  {
    assert Answer(provider, address, first, 0) == TimedOut;
    assert Answer(provider, address, first, 1) == TimedOut;
    assert Answer(provider, address, first, 2) == TimedOut;
    assert Retry(provider, address, 3, 2, first) == Run(TimedOutOnLastAttempt, 1, []);
  }

  /** A run that continues after `calls` calls and the sleeps `waits`. */
  function Resume(calls: nat, waits: seq<nat>, r: Run): Run {
    Run(r.ending, calls + r.calls, waits + r.waits)
  }

  lemma ResumeAfter(calls: nat, waits: seq<nat>, wait: nat, r: Run)
    ensures Resume(calls, waits, After(wait, r)) == Resume(calls + 1, waits + [wait], r)
  {
    assert waits + ([wait] + r.waits) == (waits + [wait]) + r.waits;
  }

  /** One attempt of the retry specification, by the outcome of its call. */
  lemma RetryStep(provider: Provider, address: string, maxRetries: nat, attempt: nat, first: nat)
    requires attempt < maxRetries
    ensures var o := Answer(provider, address, first, attempt);
      var r := Retry(provider, address, maxRetries, attempt, first);
      (o.Found? ==> r == Run(Located(o.location), 1, []))
      && (o.NoMatch? ==> r == Run(NotFound, 1, []))
      && (o.Failed? ==> r == Run(ProviderError(o.message), 1, []))
      && (o.TimedOut? && attempt == maxRetries - 1 ==> r == Run(TimedOutOnLastAttempt, 1, []))
      && (Retries(o) && !(o.TimedOut? && attempt == maxRetries - 1) ==>
            r == After(WaitAfter(o), Retry(provider, address, maxRetries, attempt + 1, first)))
  {
  }

  /** `geocode_with_retries`: the `for attempt in range(max_retries)` loop, with
      the sleeps recorded in a ghost log. */
  method RetryLoop(provider: Provider, address: string, maxRetries: nat, first: nat)
    returns (ending: Ending, calls: nat, ghost waits: seq<nat>)
    ensures Run(ending, calls, waits) == Retry(provider, address, maxRetries, 0, first)
  {
    calls, waits := 0, [];
    var attempt := 0;
    while attempt < maxRetries
      invariant attempt <= maxRetries && calls == attempt
      invariant Retry(provider, address, maxRetries, 0, first)
        == Resume(calls, waits, Retry(provider, address, maxRetries, attempt, first))
      decreases maxRetries - attempt
    {
      var outcome := provider(address, first + attempt);
      assert outcome == Answer(provider, address, first, attempt);
      RetryStep(provider, address, maxRetries, attempt, first);
      if outcome.Found? {
        ending, calls := Located(outcome.location), calls + 1;
        return;
      } else if outcome.NoMatch? {
        ending, calls := NotFound, calls + 1;
        return;
      } else if outcome.Failed? {
        ending, calls := ProviderError(outcome.message), calls + 1;
        return;
      } else if outcome.TimedOut? && attempt == maxRetries - 1 {
        ending, calls := TimedOutOnLastAttempt, calls + 1;
        return;
      }
      // a timeout before the last attempt, or a quota event: sleep and go on
      var wait := WaitAfter(outcome);
      ResumeAfter(calls, waits, wait, Retry(provider, address, maxRetries, attempt + 1, first));
      calls, waits := calls + 1, waits + [wait];
      attempt := attempt + 1;
    }
    ending := RanOut;
  }

  // ---------------------------------------------------------- result rows

  /** One row of the geocoded table. */
  datatype GeoRow = GeoRow(fullAddress: string, latitude: Option<real>, longitude: Option<real>)

  /** What the retry wrappers hand to the row loop: the location, if any. */
  function LocationOf(e: Ending): (l: Option<Coord>)
    ensures l.Some? <==> e.Located?
    ensures e.Located? ==> l.value == e.location
  {
    if e.Located? then Some(e.location) else None
  }

  /** The row the loop appends: coordinates when there is a location, nulls otherwise. */
  function RowFor(address: string, location: Option<Coord>): GeoRow {
    GeoRow(address,
      if location.Some? then Some(location.value.latitude) else None,
      if location.Some? then Some(location.value.longitude) else None)
  }

  /** The row appended for an address whose run ended with `e`: coordinates only
      for a location; None, a give-up and an escaped error all give nulls. */
  function ResultRow(address: string, e: Ending): (g: GeoRow)
    ensures g.fullAddress == address
    ensures g.latitude.None? <==> !e.Located?
    ensures g.longitude.None? <==> !e.Located?
    ensures e.Located? ==> g.latitude == Some(e.location.latitude) && g.longitude == Some(e.location.longitude)
  {
    RowFor(address, LocationOf(e))
  }

  /** The rows produced for a list of addresses and the provider calls spent. */
  datatype Batch = Batch(rows: seq<GeoRow>, calls: nat)

  /** The row loop after its first `n` addresses: one default-retry run per
      address, in order, each continuing the provider's call numbering. */
  function GeocodePrefix(provider: Provider, addresses: seq<string>, first: nat, n: nat): (b: Batch)
    requires n <= |addresses|
    ensures |b.rows| == n
    ensures b.calls <= DefaultRetries * n
    decreases n
  {
    if n == 0 then Batch([], 0)
    else
      var b := GeocodePrefix(provider, addresses, first, n - 1);
      var r := Retry(provider, addresses[n - 1], DefaultRetries, 0, first + b.calls);
      Batch(b.rows + [ResultRow(addresses[n - 1], r.ending)], b.calls + r.calls)
  }

  /** The number of the first provider call made for address `i`. */
  function StartOf(provider: Provider, addresses: seq<string>, first: nat, i: nat): nat
    requires i <= |addresses|
  {
    first + GeocodePrefix(provider, addresses, first, i).calls
  }

  /** One more address of the row loop: the row for the location the retry
      wrapper returned, and the calls it made. */
  lemma GeocodePrefixStep(provider: Provider, addresses: seq<string>, first: nat, i: nat, location: Option<Coord>, calls: nat)
    requires i < |addresses|
    requires var r := Retry(provider, addresses[i], DefaultRetries, 0, StartOf(provider, addresses, first, i));
      location == LocationOf(r.ending) && calls == r.calls
    ensures var b := GeocodePrefix(provider, addresses, first, i);
      GeocodePrefix(provider, addresses, first, i + 1) == Batch(b.rows + [RowFor(addresses[i], location)], b.calls + calls)
  {
  }

  /** The whole row loop. */
  function GeocodeAll(provider: Provider, addresses: seq<string>, first: nat): (b: Batch)
    ensures |b.rows| == |addresses|
    ensures b.calls <= DefaultRetries * |addresses|
  {
    GeocodePrefix(provider, addresses, first, |addresses|)
  }

  /** Later addresses do not change the row of an earlier one. */
  lemma {:induction false} GeocodePrefixRow(provider: Provider, addresses: seq<string>, first: nat, n: nat, i: nat)
    requires i < n <= |addresses|
    ensures GeocodePrefix(provider, addresses, first, n).rows[i]
      == ResultRow(addresses[i], Retry(provider, addresses[i], DefaultRetries, 0, StartOf(provider, addresses, first, i)).ending)
    decreases n
  {
    if n > i + 1 {
      GeocodePrefixRow(provider, addresses, first, n - 1, i);
    }
  }

  /** Row `i` is the outcome of address `i`'s own run: it copies the address, and
      its coordinates are both present exactly when one of that run's calls found
      a location. */
  lemma GeocodeAllRow(provider: Provider, addresses: seq<string>, first: nat, i: nat)
    requires i < |addresses|
    ensures var row := GeocodeAll(provider, addresses, first).rows[i];
      var start := StartOf(provider, addresses, first, i);
      var r := Retry(provider, addresses[i], DefaultRetries, 0, start);
      row == ResultRow(addresses[i], r.ending)
      && row.fullAddress == addresses[i]
      && (row.latitude.None? <==> row.longitude.None?)
      && (row.latitude.Some? <==> exists k :: 0 <= k < r.calls && Answer(provider, addresses[i], start, k).Found?)
  {
    GeocodePrefixRow(provider, addresses, first, |addresses|, i);
    RetryLocatedIffFound(provider, addresses[i], DefaultRetries, StartOf(provider, addresses, first, i));
  }

  // ------------------------------------------------------ address rebuild

  /** The columns of a location row the address is built from; `rest` holds
      the other columns, which the rebuild leaves alone. */
  datatype AddressRow = AddressRow(
    fullAddress: Option<string>,
    postcode: Option<string>,
    city: Option<string>,
    province: Option<string>,
    rest: seq<Option<string>>)

  /** The new `full_address`: the old one without `.0` artefacts (null as empty),
      postcode, city, province and the country, joined with ", ". */
  function ComposeAddress(r: AddressRow): (s: string)
    ensures |s| == |StripDotZero(OrEmpty(r.fullAddress))| + |OrEmpty(r.postcode)| + |OrEmpty(r.city)|
      + |OrEmpty(r.province)| + 19
    ensures s[|s| - 13..] == ", Netherlands"
  {
    StripDotZero(OrEmpty(r.fullAddress)) + ", " + OrEmpty(r.postcode) + ", " + OrEmpty(r.city) + ", "
      + OrEmpty(r.province) + ", Netherlands"
  }

  /** The parts the address is made of, in order. */
  function AddressParts(r: AddressRow): seq<string> {
    [StripDotZero(OrEmpty(r.fullAddress)), OrEmpty(r.postcode), OrEmpty(r.city), OrEmpty(r.province), "Netherlands"]
  }

  predicate SepAt(s: string, i: int) {
    0 <= i && i + 1 < |s| && s[i] == ',' && s[i + 1] == ' '
  }

  /** The first ", " at or after `i`, or `|s|`. */
  function FindSep(s: string, i: nat): (k: nat)
    requires i <= |s|
    ensures i <= k <= |s|
    ensures k < |s| ==> SepAt(s, k)
    ensures forall m :: i <= m < k ==> !SepAt(s, m)
    decreases |s| - i
  {
    if i == |s| then i else if SepAt(s, i) then i else FindSep(s, i + 1)
  }

  /** `s.split(", ")`. */
  function SplitFields(s: string): (parts: seq<string>)
    ensures |parts| >= 1
    decreases |s|
  {
    var k := FindSep(s, 0);
    if k == |s| then [s] else [s[..k]] + SplitFields(s[k + 2..])
  }

  /** `", ".join(parts)`. */
  function JoinFields(parts: seq<string>): string
    requires |parts| >= 1
  {
    if |parts| == 1 then parts[0] else parts[0] + ", " + JoinFields(parts[1..])
  }

  predicate NoComma(s: string) { forall i :: 0 <= i < |s| ==> s[i] != ',' }

  /** Splitting a join of comma-free parts gives the parts back. */
  lemma {:induction false} SplitJoinFields(parts: seq<string>)
    requires |parts| >= 1
    requires forall p :: p in parts ==> NoComma(p)
    ensures SplitFields(JoinFields(parts)) == parts
    decreases |parts|
  {
    var s := JoinFields(parts);
    var p := parts[0];
    assert NoComma(p);
    var k := FindSep(s, 0);
    if |parts| == 1 {
      assert k == |s|;
    } else {
      var tail := JoinFields(parts[1..]);
      assert s == p + ", " + tail;
      assert SepAt(s, |p|);
      assert k == |p|;
      assert s[k + 2..] == tail;
      assert s[..k] == p;
      assert forall q :: q in parts[1..] ==> q in parts;
      SplitJoinFields(parts[1..]);
    }
  }

  /** The address splits back into its parts when none of them holds a comma:
      the construction loses nothing. */
  lemma ComposeAddressSplits(r: AddressRow)
    requires NoComma(OrEmpty(r.fullAddress)) && NoComma(OrEmpty(r.postcode))
    requires NoComma(OrEmpty(r.city)) && NoComma(OrEmpty(r.province))
    ensures SplitFields(ComposeAddress(r)) == AddressParts(r)
  {
    var a, b, c, d, n := StripDotZero(OrEmpty(r.fullAddress)), OrEmpty(r.postcode), OrEmpty(r.city),
      OrEmpty(r.province), "Netherlands";
    StripDotZeroChars(OrEmpty(r.fullAddress));
    assert NoComma(n);
    JoinFiveFields(a, b, c, d, n);
    assert AddressParts(r) == [a, b, c, d, n];
    assert JoinFields(AddressParts(r)) == ComposeAddress(r);
    SplitJoinFields(AddressParts(r));
  }

  /** Joining five parts puts a separator between each neighbouring pair. */
  lemma JoinFiveFields(a: string, b: string, c: string, d: string, n: string)
    ensures JoinFields([a, b, c, d, n]) == a + ", " + b + ", " + c + ", " + d + ", " + n
  {
    assert [d, n][1..] == [n];
    assert JoinFields([d, n]) == d + ", " + n;
    assert [c, d, n][1..] == [d, n];
    assert JoinFields([c, d, n]) == c + ", " + (d + ", " + n);
    assert [b, c, d, n][1..] == [c, d, n];
    assert JoinFields([b, c, d, n]) == b + ", " + (c + ", " + (d + ", " + n));
    assert [a, b, c, d, n][1..] == [b, c, d, n];
    assert JoinFields([a, b, c, d, n]) == a + ", " + (b + ", " + (c + ", " + (d + ", " + n)));
  }

  /** Every character the `.0` substitution keeps comes from its input. */
  lemma {:induction false} StripDotZeroChars(s: string)
    requires NoComma(s)
    ensures NoComma(StripDotZero(s))
    decreases |s|
  {
    if s != [] {
      if DotZeroAt(s, 0) {
        StripDotZeroChars(s[2..]);
      } else {
        StripDotZeroChars(s[1..]);
        assert StripDotZero(s) == [s[0]] + StripDotZero(s[1..]);
      }
    }
  }

  /** Every row of a non-empty table after the rebuild. */
  function Prepared(rows: seq<AddressRow>): (out: seq<AddressRow>)
    ensures |out| == |rows|
    ensures forall i :: 0 <= i < |rows| ==>
      out[i].fullAddress.Some? && out[i].rest == rows[i].rest
      && out[i].postcode == rows[i].postcode && out[i].city == rows[i].city && out[i].province == rows[i].province
  {
    seq(|rows|, i requires 0 <= i < |rows| => rows[i].(fullAddress := Some(ComposeAddress(rows[i]))))
  }

  /** The `full_address` column as the row loop reads it. */
  function Addresses(rows: seq<AddressRow>): (addresses: seq<string>)
    ensures |addresses| == |rows|
  {
    seq(|rows|, i requires 0 <= i < |rows| => OrEmpty(rows[i].fullAddress))
  }

  /** After the rebuild the row loop reads exactly the composed addresses. */
  lemma PreparedAddresses(rows: seq<AddressRow>)
    ensures forall i :: 0 <= i < |rows| ==> Addresses(Prepared(rows))[i] == ComposeAddress(rows[i])
  {
  }

  /** A table of location rows whose `full_address` column the address
      preparation rewrites in place. */
  class AddressFrame {
    var rows: seq<AddressRow>

    constructor (rows: seq<AddressRow>)
      ensures this.rows == rows
    {
      this.rows := rows;
    }

    /** `prepare_addresses` (and `analyze_data`): refuse an empty table,
        otherwise rebuild `full_address` on every row. */
    method PrepareAddresses() returns (valid: bool)
      modifies this
      ensures valid <==> old(rows) != []
      ensures valid ==> rows == Prepared(old(rows))
      ensures !valid ==> rows == old(rows)
    {
      if rows == [] {
        return false;
      }
      var data := rows;
      // the `.0` substitution on the existing column
      data := seq(|data|, i requires 0 <= i < |data| =>
        data[i].(fullAddress := if data[i].fullAddress.Some? then Some(StripDotZero(data[i].fullAddress.value)) else None));
      // the concatenation, with `fillna('')` on each part
      data := seq(|data|, i requires 0 <= i < |data| =>
        data[i].(fullAddress := Some(OrEmpty(data[i].fullAddress) + ", " + OrEmpty(data[i].postcode) + ", "
          + OrEmpty(data[i].city) + ", " + OrEmpty(data[i].province) + ", Netherlands")));
      rows := data;
      return true;
    }
  }
}
