/** Resolving a set of callsigns to users from four sources of falling priority. */
module UserResolution {
  import opened Common

  datatype User = User(callsign: Callsign, name: string)

  /** An aircraft with its pilot or an ATC station with its controller. */
  datatype Contact = Contact(cs: Callsign, user: User)

  /** The first entry for a callsign counts. */
  function Find(list: seq<Contact>, cs: Callsign): (r: Option<User>)
    ensures r.Some? <==> exists i :: 0 <= i < |list| && list[i].cs == cs
  {
    if list == [] then None
    else if Find(list[..|list| - 1], cs).Some? then Find(list[..|list| - 1], cs)
    else if list[|list| - 1].cs == cs then Some(list[|list| - 1].user)
    else None
  }

  /** Entry `i` is the first one for the callsign. */
  ghost predicate IsFirst(list: seq<Contact>, i: int, cs: Callsign) {
    0 <= i < |list| && list[i].cs == cs && forall j :: 0 <= j < i ==> list[j].cs != cs
  }

  lemma {:induction false} FirstIsFound(list: seq<Contact>, i: nat, cs: Callsign)
    requires IsFirst(list, i, cs)
    ensures Find(list, cs) == Some(list[i].user)
  {
    var front := list[..|list| - 1];
    if i < |front| {
      assert IsFirst(front, i, cs);
      FirstIsFound(front, i, cs);
    }
  }

  lemma FirstExists(list: seq<Contact>, cs: Callsign, k: nat)
    requires k < |list| && list[k].cs == cs
    ensures exists i :: 0 <= i <= k && IsFirst(list, i, cs)
  {
    if j :| 0 <= j < k && list[j].cs == cs {
      FirstExists(list, cs, j);
    } else {
      assert IsFirst(list, k, cs);
    }
  }

  lemma FindTakesTheFirst(list: seq<Contact>, cs: Callsign)
    ensures if Find(list, cs).Some? then exists i :: IsFirst(list, i, cs) && Find(list, cs).value == list[i].user
            else forall i :: !IsFirst(list, i, cs)
  {
    if k :| 0 <= k < |list| && list[k].cs == cs {
      FirstExists(list, cs, k);
      var i: nat :| IsFirst(list, i, cs);
      FirstIsFound(list, i, cs);
    }
  }

  /** Own aircraft, aircraft in range, ATC online, and what the web knows, in this order. */
  function UserOf(cs: Callsign, own: Contact, aircraft: seq<Contact>, stations: seq<Contact>,
                  web: Callsign -> seq<User>): User {
    if own.cs != "" && own.cs == cs then own.user
    else if Find(aircraft, cs).Some? then Find(aircraft, cs).value
    else if Find(stations, cs).Some? then Find(stations, cs).value
    else if web(cs) == [] then User(cs, "")
    else web(cs)[0]
  }

  /** The user of the own aircraft; else of the first aircraft in range with the callsign; else of the first station
      online with it; else the first one the web knows; else one that is only a callsign. */
  ghost predicate IsBestUser(user: User, cs: Callsign, own: Contact, aircraft: seq<Contact>, stations: seq<Contact>,
                             web: Callsign -> seq<User>)
  {
    if own.cs != "" && own.cs == cs then user == own.user
    else if exists i :: 0 <= i < |aircraft| && aircraft[i].cs == cs then
      exists i :: IsFirst(aircraft, i, cs) && user == aircraft[i].user
    else if exists i :: 0 <= i < |stations| && stations[i].cs == cs then
      exists i :: IsFirst(stations, i, cs) && user == stations[i].user
    else if |web(cs)| > 0 then user == web(cs)[0]
    else user == User(cs, "")
  }

  lemma UserOfIsBest(cs: Callsign, own: Contact, aircraft: seq<Contact>, stations: seq<Contact>,
                     web: Callsign -> seq<User>)
    ensures IsBestUser(UserOf(cs, own, aircraft, stations, web), cs, own, aircraft, stations, web)
  {
    FindTakesTheFirst(aircraft, cs);
    FindTakesTheFirst(stations, cs);
  }

  lemma FindExtends(list: seq<Contact>, k: nat, n: nat, cs: Callsign)
    requires k <= n <= |list| && Find(list[..k], cs).Some?
    ensures Find(list[..n], cs) == Find(list[..k], cs)
  {
    if k < n {
      FindExtends(list, k, n - 1, cs);
      assert list[..n][..n - 1] == list[..n - 1];
    }
  }

  /** The part of a list that was looked at answers whatever it can. */
  ghost predicate Searched(list: seq<Contact>, k: nat, left: set<Callsign>) {
    k <= |list| && forall cs :: cs in left ==> Find(list[..k], cs).None?
  }

  /** Takes the callsigns found in a list out of the search list; stops as soon as nothing is left to find. */
  method TakeFrom(list: seq<Contact>, searchList: set<Callsign>)
    returns (left: set<Callsign>, users: seq<User>, ghost found: seq<Callsign>)
    ensures left <= searchList && Enumerates(found, searchList - left)
    ensures |users| == |found| && forall i :: 0 <= i < |found| ==> Find(list, found[i]) == Some(users[i])
    ensures forall cs :: cs in left ==> Find(list, cs).None?
  {
    left, users, found := searchList, [], [];
    var k := 0;
    while k < |list|
      invariant left <= searchList && Enumerates(found, searchList - left)
      invariant Searched(list, k, left)
      invariant |users| == |found| && forall i :: 0 <= i < |found| ==> Find(list[..k], found[i]) == Some(users[i])
    {
      if left == {} { break; }
      var cs := list[k].cs;
      assert list[..k + 1][..k] == list[..k];
      forall i | 0 <= i < |found| ensures Find(list[..k + 1], found[i]) == Some(users[i]) {
        FindExtends(list, k, k + 1, found[i]);
      }
      if cs in left {
        users := users + [list[k].user];
        left := left - {cs};
        found := found + [cs];
      }
      k := k + 1;
    }
    assert list[..|list|] == list;
    forall i | 0 <= i < |found| ensures Find(list, found[i]) == Some(users[i]) {
      FindExtends(list, k, |list|, found[i]);
    }
  }

  lemma EnumerationsJoin(first: seq<Callsign>, second: seq<Callsign>, all: set<Callsign>, mid: set<Callsign>,
                         left: set<Callsign>)
    requires left <= mid <= all && Enumerates(first, all - mid) && Enumerates(second, mid - left)
    ensures Enumerates(first + second, all - left)
  {
    forall i, j | 0 <= i < j < |first + second| ensures (first + second)[i] != (first + second)[j] {
      if i < |first| <= j {
        assert first[i] in first && second[j - |first|] in second;
      }
    }
  }

  /** `users` are the best users for the callsigns listed in `answered`. */
  ghost predicate BestUsers(users: seq<User>, answered: seq<Callsign>, own: Contact, aircraft: seq<Contact>,
                            stations: seq<Contact>, web: Callsign -> seq<User>)
  {
    |users| == |answered| && forall i :: 0 <= i < |answered| ==>
        users[i] == UserOf(answered[i], own, aircraft, stations, web)
  }

  /** Each callsign has exactly one user in the list, and that is its best one. */
  ghost predicate Resolves(users: seq<User>, callsigns: set<Callsign>, own: Contact, aircraft: seq<Contact>,
                           stations: seq<Contact>, web: Callsign -> seq<User>)
  {
    exists answered: seq<Callsign> :: Enumerates(answered, callsigns)
        && |users| == |answered|
        && forall i :: 0 <= i < |answered| ==> IsBestUser(users[i], answered[i], own, aircraft, stations, web)
  }

  lemma BestUsersResolve(users: seq<User>, answered: seq<Callsign>, callsigns: set<Callsign>, own: Contact,
                         aircraft: seq<Contact>, stations: seq<Contact>, web: Callsign -> seq<User>)
    requires Enumerates(answered, callsigns) && BestUsers(users, answered, own, aircraft, stations, web)
    ensures Resolves(users, callsigns, own, aircraft, stations, web)
  {
    forall i | 0 <= i < |answered| ensures IsBestUser(users[i], answered[i], own, aircraft, stations, web) {
      UserOfIsBest(answered[i], own, aircraft, stations, web);
    }
  }

  /** One user per requested callsign, from the best source that knows it, whatever the other lists contain. */
  method GetUsersForCallsigns(callsigns: set<Callsign>, own: Contact, aircraft: seq<Contact>, stations: seq<Contact>,
                              web: Callsign -> seq<User>)
    returns (users: seq<User>)
    ensures Resolves(users, callsigns, own, aircraft, stations, web)
  {
    ghost var answered: seq<Callsign> := [];
    users := [];
    if callsigns == {} {
      BestUsersResolve(users, answered, callsigns, own, aircraft, stations, web);
      return;
    }
    var searchList := callsigns;
    if own.cs != "" && own.cs in searchList {
      searchList := searchList - {own.cs};
      users, answered := [own.user], [own.cs];
    }
    var more: seq<User>;
    ghost var found: seq<Callsign>;
    assert Enumerates(answered, callsigns - searchList);
    ghost var before := searchList;
    searchList, more, found := TakeFrom(aircraft, searchList);
    EnumerationsJoin(answered, found, callsigns, before, searchList);
    assert forall i :: 0 <= i < |found| ==> found[i] in before - searchList;
    users, answered := users + more, answered + found;
    before := searchList;
    searchList, more, found := TakeFrom(stations, searchList);
    EnumerationsJoin(answered, found, callsigns, before, searchList);
    assert forall i :: 0 <= i < |found| ==> found[i] in before - searchList;
    users, answered := users + more, answered + found;
    while searchList != {}
      invariant searchList <= callsigns && Enumerates(answered, callsigns - searchList)
      invariant BestUsers(users, answered, own, aircraft, stations, web)
      invariant forall cs :: cs in searchList ==>
        (own.cs != "" ==> own.cs != cs) && Find(aircraft, cs).None? && Find(stations, cs).None?
      decreases searchList
    {
      var cs :| cs in searchList;
      EnumeratesOneMore(answered, callsigns - searchList, cs);
      assert callsigns - (searchList - {cs}) == callsigns - searchList + {cs};
      users := users + [if web(cs) == [] then User(cs, "") else web(cs)[0]];
      searchList, answered := searchList - {cs}, answered + [cs];
    }
    assert callsigns - searchList == callsigns;
    BestUsersResolve(users, answered, callsigns, own, aircraft, stations, web);
  }
}
