/** The weather manager as a value: requests wait in one queue, because a plugin can only handle one at a time. */
module WeatherSpec {
  import opened Common

  const REQUEST_TIMEOUT_MS := 30000

  /** `None` is a null position; `weather` stands for all layers of a grid point. */
  datatype Point = Point(name: string, position: Option<int>, weather: int)

  type Grid = seq<Point>

  const CLEAR_WEATHER: Grid := [Point("GLOB", Some(0), 0)]

  /** Looks up the closest point of a grid (a default point if the grid is empty). */
  type Closest = (Grid, Option<int>) -> Point

  /** The null identifier carries no process data, hence is not the anonymous one of this process. */
  datatype Identifier = Null | Anonymous | Named(id: nat)

  datatype Request = Request(filePath: string, identifier: Identifier, grid: Grid, callback: Option<nat>)

  datatype Call =
    | ByIdentifier(grid: Grid, identifier: Identifier)
    | ByCallback(grid: Grid, callback: Option<nat>)
    | FromFile(filePath: string, grid: Grid, callback: Option<nat>)

  datatype Effect =
    | DeferFetch                                  // a zero timer that will fetch the then first request
    | Fetch(request: Request)
    | PostCallback(callback: nat, grid: Grid)  // a zero timer that will call it
    | Emit(grid: Grid, identifier: Identifier)

  datatype Manager = Manager(pending: seq<Request>, lastTs: int, clear: bool)

  datatype Outcome = Outcome(man: Manager, effects: seq<Effect>)

  const INITIAL := Manager([], -1, false)

  predicate IsUsable(grid: Grid) {
    grid != [] && grid[0].position.Some?
  }

  function RequestOf(call: Call): Request {
    match call
    case ByIdentifier(grid, identifier) => Request("", identifier, grid, None)
    case ByCallback(grid, callback) => Request("", Null, grid, callback)
    case FromFile(filePath, grid, callback) => Request(filePath, Null, grid, callback)
  }

  /** Clear weather is posted to a callback without a fetch. */
  predicate AnsweredClear(m: Manager, call: Call) {
    m.clear && !call.ByIdentifier? && call.callback.Some? && (call.ByCallback? ==> IsUsable(call.grid))
  }

  /** The request goes into the queue; requests from a file are not checked. */
  predicate Accepts(m: Manager, call: Call) {
    match call
    case ByIdentifier(grid, identifier) => identifier != Null && IsUsable(grid)
    case ByCallback(grid, callback) => callback.Some? && IsUsable(grid) && !m.clear
    case FromFile(_, _, callback) => !(m.clear && callback.Some?)
  }

  predicate TimedOut(m: Manager, now: int) {
    m.pending != [] && m.lastTs > 0 && now - m.lastTs > REQUEST_TIMEOUT_MS
  }

  function Append(m: Manager, request: Request, now: int): Manager {
    Manager(if TimedOut(m, now) then [request] else m.pending + [request], now, m.clear)
  }

  function Submit(m: Manager, call: Call, now: int): Outcome {
    if AnsweredClear(m, call) then Outcome(m, [PostCallback(call.callback.value, CLEAR_WEATHER)])
    else if !Accepts(m, call) then Outcome(m, [])
    else
      var m' := Append(m, RequestOf(call), now);
      Outcome(m', if |m'.pending| == 1 then [DeferFetch] else [])
  }

  /** Even a clean-up leaves at least the request that caused it. */
  function SubmitAll(m: Manager, calls: seq<Call>, now: int): (o: Outcome)
    ensures m.pending != [] ==> o.man.pending != []
  {
    if calls == [] then Outcome(m, [])
    else
      var before := SubmitAll(m, calls[..|calls| - 1], now);
      var last := Submit(before.man, calls[|calls| - 1], now);
      Outcome(last.man, before.effects + last.effects)
  }

  /** Every requested point takes weather and position of the closest fetched one. */
  function Interpolated(grid: Grid, fetched: Grid, closest: Closest): (r: Grid)
    ensures |r| == |grid|
    ensures forall i :: 0 <= i < |grid| ==>
      var near := closest(fetched, grid[i].position);
      r[i] == Point(grid[i].name, near.position, near.weather)
  {
    seq(|grid|, i requires 0 <= i < |grid| =>
      var near := closest(fetched, grid[i].position);
      Point(grid[i].name, near.position, near.weather))
  }

  /** Who is told about an answer: the callback by a zero timer, and everybody at once unless the request was
      anonymous. */
  function Answers(request: Request, grid: Grid): seq<Effect> {
    (if request.callback.Some? then [PostCallback(request.callback.value, grid)] else [])
    + if request.identifier != Anonymous then [Emit(grid, request.identifier)] else []
  }

  /** A finished fetch: answer the first request, then pop it. `nested` are the requests the listeners of the
      answer make before they return. */
  function HandleNext(m: Manager, fetched: Grid, closest: Closest, nested: seq<Call>, now: int): Outcome {
    if m.pending == [] then Outcome(m, [])
    else
      var answers := Answers(m.pending[0], Interpolated(m.pending[0].grid, fetched, closest));
      var during := SubmitAll(m, nested, now);
      var rest := during.man.pending[1..];
      if rest != [] then Outcome(during.man.(pending := rest), answers + during.effects + [Fetch(rest[0])])
      else Outcome(during.man.(pending := rest, lastTs := -1), answers + during.effects)
  }
}
