/**
 * The recent-search list of the location search box: most recent first, at
 * most ten entries, one per location name.
 */
module SearchHistory {
  import opened Common

  /** A geocoded place; `kind` is the provider's `type`. */
  datatype Location = Location(name: string, lat: real, lng: real, kind: string)

  const MaxHistory: nat := 10

  /** `history.filter(h => h.name !== name)`. */
  function WithoutName(history: seq<Location>, name: string): (r: seq<Location>)
    ensures |r| <= |history|
    ensures forall x :: x in r <==> x in history && x.name != name
    ensures IsSubsequence(r, history)
  {
    if history == [] then []
    else
      var rest := WithoutName(history[1..], name);
      assert history == [history[0]] + history[1..];
      if history[0].name != name then
        assert ([history[0]] + rest)[1..] == rest;
        [history[0]] + rest
      else
        rest
  }

  /** Filtering keeps every other entry as often as it occurs and drops every entry with the name. */
  lemma {:induction false} WithoutNameCounts(history: seq<Location>, name: string, x: Location)
    ensures multiset(WithoutName(history, name))[x] == if x.name != name then multiset(history)[x] else 0
  {
    if history != [] {
      assert history == [history[0]] + history[1..];
      WithoutNameCounts(history[1..], name, x);
      if history[0].name != name {
        assert WithoutName(history, name) == [history[0]] + WithoutName(history[1..], name);
      }
    }
  }

  /** No two entries share a name. */
  predicate DistinctNames(history: seq<Location>) {
    forall i, j :: 0 <= i < j < |history| ==> history[i].name != history[j].name
  }

  /** Removing a name that is absent changes nothing. */
  lemma {:induction false} WithoutAbsentName(history: seq<Location>, name: string)
    requires forall x :: x in history ==> x.name != name
    ensures WithoutName(history, name) == history
  {
    if history != [] {
      assert history == [history[0]] + history[1..];
      WithoutAbsentName(history[1..], name);
    }
  }

  /** Filtering keeps pairwise distinct names distinct. */
  lemma {:induction false} WithoutNameKeepsDistinct(history: seq<Location>, name: string)
    requires DistinctNames(history)
    ensures DistinctNames(WithoutName(history, name))
  {
    if history != [] {
      var rest := WithoutName(history[1..], name);
      WithoutNameKeepsDistinct(history[1..], name);
      if history[0].name != name {
        HeadNameUnique(history);
        DistinctCons(history[0], rest);
      }
    }
  }

  lemma HeadNameUnique(history: seq<Location>)
    requires history != [] && DistinctNames(history)
    ensures forall x :: x in history[1..] ==> x.name != history[0].name
  {
    forall x | x in history[1..] ensures x.name != history[0].name {
      var k :| 0 <= k < |history[1..]| && history[1..][k] == x;
      assert history[k + 1] == x;
    }
  }

  lemma DistinctCons(head: Location, rest: seq<Location>)
    requires DistinctNames(rest)
    requires forall x :: x in rest ==> x.name != head.name
    ensures DistinctNames([head] + rest)
  {
    var r := [head] + rest;
    forall i, j | 0 <= i < j < |r| ensures r[i].name != r[j].name {
      assert r[j] == rest[j - 1];
      if i > 0 {
        assert r[i] == rest[i - 1];
      } else {
        assert rest[j - 1] in rest;
      }
    }
  }

  /** `handleSelectLocation`'s update: the location first, then the others, up to ten in all. */
  function SelectLocation(history: seq<Location>, location: Location): (r: seq<Location>)
    ensures 1 <= |r| <= MaxHistory
    ensures r[0] == location
    ensures forall i :: 1 <= i < |r| ==> r[i].name != location.name
    ensures var others := WithoutName(history, location.name);
      && |r| == (if |others| + 1 <= MaxHistory then |others| + 1 else MaxHistory)
      && r[1..] == others[..|r| - 1]
  {
    var others := WithoutName(history, location.name);
    var all := [location] + others;
    var r := all[..if |all| <= MaxHistory then |all| else MaxHistory];
    assert r[1..] == others[..|r| - 1];
    forall i | 1 <= i < |r| ensures r[i].name != location.name {
      assert r[i] == others[i - 1];
      assert others[i - 1] in others;
    }
    r
  }

  /** With distinct names before, names stay distinct after a selection. */
  lemma SelectKeepsNamesDistinct(history: seq<Location>, location: Location)
    requires DistinctNames(history)
    ensures DistinctNames(SelectLocation(history, location))
  {
    var others := WithoutName(history, location.name);
    WithoutNameKeepsDistinct(history, location.name);
    assert DistinctNames(others);
    var r := SelectLocation(history, location);
    forall i, j | 0 <= i < j < |r| ensures r[i].name != r[j].name {
      if i > 0 {
        assert r[i] == r[1..][i - 1] == others[i - 1];
        assert r[j] == r[1..][j - 1] == others[j - 1];
        assert others[i - 1].name != others[j - 1].name;
      }
    }
  }

  /** Selecting the same location twice in a row is the same as selecting it once. */
  lemma SelectIdempotent(history: seq<Location>, location: Location)
    ensures SelectLocation(SelectLocation(history, location), location) == SelectLocation(history, location)
  {
    var once := SelectLocation(history, location);
    var tail := once[1..];
    assert once == [location] + tail;
    assert forall x :: x in tail ==> x.name != location.name;
    WithoutAbsentName(tail, location.name);
    assert WithoutName([location] + tail, location.name) == WithoutName(tail, location.name) by {
      assert ([location] + tail)[1..] == tail;
    }
  }

  /** `handleClearHistory`: the list is emptied. */
  function ClearHistory(): (r: seq<Location>)
    ensures |r| == 0
  {
    []
  }

  /** After clearing, a selection leaves just that location. */
  lemma SelectAfterClear(location: Location)
    ensures SelectLocation(ClearHistory(), location) == [location]
  {
  }
}
