/** The weather manager with its request queue updated in place; every method returns what it sets off. */
module WeatherManager {
  import opened Common
  import opened WeatherSpec

  class CWeatherManager {
    var pendingRequests: seq<Request>
    var lastPendingRequestTs: int
    var isWeatherClear: bool

    ghost function Value(): Manager
      reads this
    {
      Manager(pendingRequests, lastPendingRequestTs, isWeatherClear)
    }

    constructor ()
      ensures Value() == INITIAL
    {
      pendingRequests, lastPendingRequestTs, isWeatherClear := [], -1, false;
    }

    method SetWeatherToClear(value: bool)
      modifies this
      ensures Value() == old(Value()).(clear := value)
    {
      isWeatherClear := value;
    }

    method AppendRequest(request: Request, now: int)
      modifies this
      ensures Value() == Append(old(Value()), request, now)
    {
      if pendingRequests != [] && lastPendingRequestTs > 0 {
        var pendingMs := now - lastPendingRequestTs;
        if pendingMs > REQUEST_TIMEOUT_MS { pendingRequests := []; }
      }
      pendingRequests := pendingRequests + [request];
      lastPendingRequestTs := now;
    }

    method RequestWeatherGrid(grid: Grid, identifier: Identifier, now: int) returns (effects: seq<Effect>)
      modifies this
      ensures Outcome(Value(), effects) == Submit(old(Value()), ByIdentifier(grid, identifier), now)
    {
      if identifier == Null || grid == [] || grid[0].position.None? { return []; }
      AppendRequest(Request("", identifier, grid, None), now);
      effects := if |pendingRequests| == 1 then [DeferFetch] else [];
    }

    method RequestWeatherGridForCallback(grid: Grid, callback: Option<nat>, now: int) returns (effects: seq<Effect>)
      modifies this
      ensures Outcome(Value(), effects) == Submit(old(Value()), ByCallback(grid, callback), now)
    {
      if callback.None? || grid == [] || grid[0].position.None? { return []; }
      if isWeatherClear { return [PostCallback(callback.value, CLEAR_WEATHER)]; }
      AppendRequest(Request("", Null, grid, callback), now);
      effects := if |pendingRequests| == 1 then [DeferFetch] else [];
    }

    method RequestWeatherGridFromFile(filePath: string, grid: Grid, callback: Option<nat>, now: int)
      returns (effects: seq<Effect>)
      modifies this
      ensures Outcome(Value(), effects) == Submit(old(Value()), FromFile(filePath, grid, callback), now)
    {
      if isWeatherClear && callback.Some? { return [PostCallback(callback.value, CLEAR_WEATHER)]; }
      AppendRequest(Request(filePath, Null, grid, callback), now);
      effects := if |pendingRequests| == 1 then [DeferFetch] else [];
    }

    method FetchNextWeatherData() returns (effects: seq<Effect>)
      requires pendingRequests != []
      ensures effects == [Fetch(pendingRequests[0])]
    {
      effects := [Fetch(pendingRequests[0])];
    }

    /** Calls made by a listener while a request is being answered. */
    method Listeners(nested: seq<Call>, now: int) returns (effects: seq<Effect>)
      modifies this
      ensures Outcome(Value(), effects) == SubmitAll(old(Value()), nested, now)
    {
      effects := [];
      for i := 0 to |nested|
        invariant Outcome(Value(), effects) == SubmitAll(old(Value()), nested[..i], now)
      {
        assert nested[..i + 1][..i] == nested[..i];
        var more: seq<Effect>;
        match nested[i] {
          case ByIdentifier(grid, identifier) => more := RequestWeatherGrid(grid, identifier, now);
          case ByCallback(grid, callback) => more := RequestWeatherGridForCallback(grid, callback, now);
          case FromFile(filePath, grid, callback) => more := RequestWeatherGridFromFile(filePath, grid, callback, now);
        }
        effects := effects + more;
      }
      assert nested[..|nested|] == nested;
    }

    method Interpolate(grid: Grid, fetched: Grid, closest: Closest) returns (result: Grid)
      ensures result == Interpolated(grid, fetched, closest)
    {
      result := grid;
      for i := 0 to |grid|
        invariant |result| == |grid| && result[i..] == grid[i..]
        invariant result[..i] == Interpolated(grid, fetched, closest)[..i]
      {
        var near := closest(fetched, result[i].position);
        result := result[i := result[i].(weather := near.weather)];
        result := result[i := result[i].(position := near.position)];
      }
    }

    method HandleNextRequest(fetched: Grid, closest: Closest, nested: seq<Call>, now: int)
      returns (effects: seq<Effect>)
      modifies this
      ensures Outcome(Value(), effects) == HandleNext(old(Value()), fetched, closest, nested, now)
    {
      if pendingRequests == [] { return []; }
      var request := pendingRequests[0];
      var requestedGrid := Interpolate(request.grid, fetched, closest);
      effects := if request.callback.Some? then [PostCallback(request.callback.value, requestedGrid)] else [];
      if request.identifier != Anonymous { effects := effects + [Emit(requestedGrid, request.identifier)]; }
      var more := Listeners(nested, now);
      effects := effects + more;
      pendingRequests := pendingRequests[1..];
      if pendingRequests != [] {
        var fetch := FetchNextWeatherData();
        effects := effects + fetch;
      } else {
        lastPendingRequestTs := -1;
      }
    }
  }
}
