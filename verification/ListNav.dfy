// Keyboard navigation of a list: a cursor and a multi-selection that survive
// refetches and removals.
module ListNav {
  import opened Common

  datatype Nav = Nav(ids: seq<string>, cursor: Option<string>, selected: seq<string>)

  datatype Action =
    | Sync(ids: seq<string>)
    | Move(delta: int)
    | First
    | Last
    | Set(id: Option<string>)
    | Toggle(target: Option<string>)
    | ToggleAll
    | Clear
    | Remove(gone: seq<string>)

  const INITIAL := Nav([], None, [])

  function Within(subset: seq<string>): string -> bool { (x: string) => x in subset }

  function Outside(gone: seq<string>): string -> bool { (x: string) => x !in gone }

  function InOrder(ids: seq<string>, subset: seq<string>): seq<string> { Filter(ids, Within(subset)) }

  // ---- where the cursor lands ------------------------------------------------------

  // The first row at index `i` or later that is still present.
  function NextPresent(old_: seq<string>, present: seq<string>, i: nat): (r: Option<nat>)
    requires i <= |old_|
    ensures r.Some? ==> i <= r.value < |old_| && old_[r.value] in present
    ensures r.Some? ==> forall j :: i <= j < r.value ==> old_[j] !in present
    ensures r.None? ==> forall j :: i <= j < |old_| ==> old_[j] !in present
    decreases |old_| - i
  {
    if i == |old_| then None else if old_[i] in present then Some(i) else NextPresent(old_, present, i + 1)
  }

  // The last row before index `i` that is still present.
  function PreviousPresent(old_: seq<string>, present: seq<string>, i: nat): (r: Option<nat>)
    requires i <= |old_|
    ensures r.Some? ==> r.value < i && old_[r.value] in present
    ensures r.Some? ==> forall j :: r.value < j < i ==> old_[j] !in present
    ensures r.None? ==> forall j :: 0 <= j < i ==> old_[j] !in present
  {
    if i == 0 then None else if old_[i - 1] in present then Some(i - 1) else PreviousPresent(old_, present, i - 1)
  }

  function Successor(old_: seq<string>, new_: seq<string>, cursor: Option<string>): Option<string> {
    if cursor.None? || new_ == [] then None
    else if cursor.value in new_ then cursor
    else
      var k := IndexOf(old_, cursor.value);
      if k == |old_| then None
      else
        var (later, earlier) := (NextPresent(old_, new_, k + 1), PreviousPresent(old_, new_, k));
        if later.Some? then Some(old_[later.value])
        else if earlier.Some? then Some(old_[earlier.value])
        else Some(new_[0])
  }

  // `successor`, scanning as the code does.
  method FindSuccessor(old_: seq<string>, new_: seq<string>, cursor: Option<string>) returns (r: Option<string>)
    ensures r == Successor(old_, new_, cursor)
  {
    if cursor.None? || new_ == [] {
      return None;
    }
    if cursor.value in new_ {
      return cursor;
    }
    var k := IndexOf(old_, cursor.value);
    if k == |old_| {
      return None;
    }
    var i := k + 1;
    while i < |old_|
      invariant k < i <= |old_| && NextPresent(old_, new_, k + 1) == NextPresent(old_, new_, i)
    {
      if old_[i] in new_ {
        return Some(old_[i]);
      }
      i := i + 1;
    }
    i := k;
    while i > 0
      invariant 0 <= i <= k && PreviousPresent(old_, new_, k) == PreviousPresent(old_, new_, i)
    {
      if old_[i - 1] in new_ {
        return Some(old_[i - 1]);
      }
      i := i - 1;
    }
    return Some(new_[0]);
  }

  // ---- the reducer --------------------------------------------------------------------

  function Target(s: Nav, delta: int): (next: nat)
    requires s.ids != []
    ensures next < |s.ids|
  {
    var k := if s.cursor.None? then |s.ids| else IndexOf(s.ids, s.cursor.value);
    if k == |s.ids| then if delta > 0 then 0 else |s.ids| - 1
    else if k + delta < 0 then 0
    else Min(|s.ids| - 1, k + delta)
  }

  function ToggleId(s: Nav, id: string): Nav {
    if id !in s.ids then s
    else if id in s.selected then s.(selected := Filter(s.selected, Outside([id])))
    else s.(selected := InOrder(s.ids, s.selected + [id]))
  }

  function Reduce(s: Nav, action: Action): Nav {
    match action
    case Sync(ids) =>
      if ids == s.ids then s else Nav(ids, Successor(s.ids, ids, s.cursor), InOrder(ids, s.selected))
    case Move(delta) => if s.ids == [] then s else s.(cursor := Some(s.ids[Target(s, delta)]))
    case First => if s.ids == [] then s else s.(cursor := Some(s.ids[0]))
    case Last => if s.ids == [] then s else s.(cursor := Some(s.ids[|s.ids| - 1]))
    case Set(id) => if id.Some? && id.value !in s.ids then s else s.(cursor := id)
    case Toggle(target) =>
      var id := if target.Some? then target else s.cursor;
      if id.None? then s else ToggleId(s, id.value)
    case ToggleAll => s.(selected := if |s.selected| == |s.ids| && |s.ids| > 0 then [] else s.ids)
    case Clear => s.(selected := [])
    case Remove(gone) =>
      var ids := Filter(s.ids, Outside(gone));
      Nav(ids, Successor(s.ids, ids, s.cursor), Filter(s.selected, Outside(gone)))
  }

  // ---- the invariant --------------------------------------------------------------------

  // The cursor is on a listed row, if anywhere, and the selection lists
  // selected rows once each, in display order.
  ghost predicate Inv(s: Nav) {
    && Distinct(s.ids)
    && (s.cursor.Some? ==> s.cursor.value in s.ids)
    && s.selected == InOrder(s.ids, s.selected)
  }

  lemma {:induction false} FilterFilter(s: seq<string>, p: string -> bool, q: string -> bool)
    ensures Filter(Filter(s, p), q) == Filter(s, (x: string) => p(x) && q(x))
  {
    if s != [] {
      FilterFilter(s[1..], p, q);
      if p(s[0]) {
        assert Filter(s, p)[1..] == Filter(s[1..], p);
      }
    }
  }

  // A filtered list is in order.
  lemma FilteredInOrder(s: seq<string>, p: string -> bool)
    ensures InOrder(s, Filter(s, p)) == Filter(s, p)
  {
    FilterSame(s, Within(Filter(s, p)), p);
  }

  // In a valid state, filtering the selection is filtering the list by both.
  lemma FilterSelection(s: Nav, p: string -> bool)
    requires Inv(s)
    ensures Filter(s.selected, p) == Filter(s.ids, (x: string) => x in s.selected && p(x))
  {
    var both := (x: string) => Within(s.selected)(x) && p(x);
    FilterFilter(s.ids, Within(s.selected), p);
    FilterSame(s.ids, both, (x: string) => x in s.selected && p(x));
  }

  lemma ToggleKeeps(s: Nav, id: string)
    requires Inv(s)
    ensures Inv(ToggleId(s, id))
  {
    if id in s.ids {
      if id in s.selected {
        FilterSelection(s, Outside([id]));
        FilteredInOrder(s.ids, (x: string) => x in s.selected && Outside([id])(x));
      } else {
        FilteredInOrder(s.ids, Within(s.selected + [id]));
      }
    }
  }

  // Removing rows is synchronising with the list without them.
  lemma RemoveIsSync(s: Nav, gone: seq<string>)
    requires Inv(s)
    ensures Reduce(s, Remove(gone)) == Reduce(s, Sync(Filter(s.ids, Outside(gone))))
  {
    var ids := Filter(s.ids, Outside(gone));
    FilterSelection(s, Outside(gone));
    FilterFilter(s.ids, Outside(gone), Within(s.selected));
    FilterSame(s.ids, (x: string) => x in s.selected && Outside(gone)(x),
               (x: string) => Outside(gone)(x) && Within(s.selected)(x));
    assert Filter(s.selected, Outside(gone)) == InOrder(ids, s.selected);
  }

  lemma SyncKeeps(s: Nav, ids: seq<string>)
    requires Inv(s) && Distinct(ids)
    ensures Inv(Reduce(s, Sync(ids)))
  {
    FilteredInOrder(ids, Within(s.selected));
  }

  lemma ReduceKeeps(s: Nav, action: Action)
    requires Inv(s) && (action.Sync? ==> Distinct(action.ids))
    ensures Inv(Reduce(s, action))
  {
    match action {
      case Sync(ids) => SyncKeeps(s, ids);
      case Toggle(target) =>
        var id := if target.Some? then target else s.cursor;
        if id.Some? { ToggleKeeps(s, id.value); }
      case ToggleAll => FilterAll(s.ids, Within(s.ids));
      case Clear => assert InOrder(s.ids, []) == [] by { NothingInOrder(s.ids); }
      case Remove(gone) =>
        RemoveIsSync(s, gone);
        FilterDistinct(s.ids, Outside(gone));
        SyncKeeps(s, Filter(s.ids, Outside(gone)));
      case _ =>
    }
    if action.ToggleAll? { NothingInOrder(s.ids); }
  }

  lemma {:induction false} NothingInOrder(ids: seq<string>)
    ensures InOrder(ids, []) == []
  {
    if ids != [] { NothingInOrder(ids[1..]); }
  }

  function Run(actions: seq<Action>): Nav {
    if actions == [] then INITIAL else Reduce(Run(actions[..|actions| - 1]), actions[|actions| - 1])
  }

  // Whatever the actions, as long as each synced list is free of duplicates:
  // the cursor is nowhere or on a listed row, and the selection is a
  // duplicate-free part of the list, in its order.
  lemma {:induction false} NavAlways(actions: seq<Action>)
    requires forall i :: 0 <= i < |actions| && actions[i].Sync? ==> Distinct(actions[i].ids)
    ensures Inv(Run(actions)) && Distinct(Run(actions).selected)
  {
    if actions != [] {
      NavAlways(actions[..|actions| - 1]);
      ReduceKeeps(Run(actions[..|actions| - 1]), actions[|actions| - 1]);
    }
    FilterDistinct(Run(actions).ids, Within(Run(actions).selected));
  }

  // ---- laws ----------------------------------------------------------------------------------

  // Toggling the same row twice changes nothing.
  lemma ToggleTwice(s: Nav, id: string)
    requires Inv(s)
    ensures Reduce(Reduce(s, Toggle(Some(id))), Toggle(Some(id))) == s
  {
    var t := ToggleId(s, id);
    ToggleKeeps(s, id);
    if id in s.ids {
      if id in s.selected {
        FilterSame(s.ids, Within(t.selected + [id]), Within(s.selected));
      } else {
        FilterSelection(t, Outside([id]));
        FilterSame(s.ids, (x: string) => x in t.selected && Outside([id])(x), Within(s.selected));
      }
    }
  }

  // None of the rows from `i` to before `j` is still present.
  predicate GoneBetween(old_: seq<string>, present: seq<string>, i: nat, j: nat)
    requires j <= |old_|
  {
    forall m :: i <= m < j ==> old_[m] !in present
  }

  // A cursor whose row vanished lands on the nearest surviving later row,
  // else on the nearest surviving earlier one, else on the first new row.
  lemma VanishedCursor(s: Nav, ids: seq<string>, k: nat)
    requires Inv(s) && k < |s.ids| && s.cursor == Some(s.ids[k]) && s.ids[k] !in ids && ids != []
    ensures var c := Reduce(s, Sync(ids)).cursor;
      && (forall i :: k < i < |s.ids| && s.ids[i] in ids && GoneBetween(s.ids, ids, k + 1, i) ==> c == Some(s.ids[i]))
      && (forall i :: 0 <= i < k && s.ids[i] in ids && GoneBetween(s.ids, ids, i + 1, |s.ids|) ==> c == Some(s.ids[i]))
      && (GoneBetween(s.ids, ids, 0, |s.ids|) ==> c == Some(ids[0]))
  {
    assert IndexOf(s.ids, s.ids[k]) == k;
  }

  // Moving there and back returns exactly when the first move stays on the
  // list, or overshoots it from the opposite end.
  lemma MoveThereAndBack(s: Nav, k: nat, delta: int)
    requires Inv(s) && k < |s.ids| && s.cursor == Some(s.ids[k])
    ensures Reduce(Reduce(s, Move(delta)), Move(-delta)) == s <==>
            0 <= k + delta < |s.ids| || (k + delta < 0 && k == |s.ids| - 1) || (k + delta >= |s.ids| && k == 0)
  {
    var there := Target(s, delta);
    var t := Reduce(s, Move(delta));
    assert IndexOf(s.ids, s.ids[k]) == k;
    assert IndexOf(t.ids, t.ids[there]) == there;
    var back := Target(t, -delta);
    assert s.ids[back] == s.ids[k] <==> back == k;
  }

  // Where each key takes the cursor: to the ends, by `delta` rows but not past
  // an end, from nowhere to the end that the direction suggests.
  lemma CursorMoves(s: Nav, k: nat, delta: int)
    requires Inv(s) && k < |s.ids|
    ensures var n := |s.ids|;
      && Reduce(s, First).cursor == Some(s.ids[0]) && Reduce(s, Last).cursor == Some(s.ids[n - 1])
      && (s.cursor == Some(s.ids[k]) && 0 <= k + delta < n ==> Reduce(s, Move(delta)).cursor == Some(s.ids[k + delta]))
      && (s.cursor == Some(s.ids[k]) && k + delta < 0 ==> Reduce(s, Move(delta)) == Reduce(s, First))
      && (s.cursor == Some(s.ids[k]) && k + delta >= n ==> Reduce(s, Move(delta)) == Reduce(s, Last))
      && (s.cursor == None ==> Reduce(s, Move(delta)) == Reduce(s, if delta > 0 then First else Last))
  {
    if s.cursor == Some(s.ids[k]) { IndexOfFirst(s.ids, s.ids[k], k); }
  }

  predicate MovesCursor(a: Action) { a.Move? || a.First? || a.Last? || a.Set? }

  // Cursor keys leave list and selection alone, and selection keys leave list
  // and cursor alone; on an empty list neither changes anything.
  lemma KeysAreSeparate(s: Nav, a: Action)
    requires Inv(s) && !a.Sync? && !a.Remove?
    ensures Reduce(s, a).ids == s.ids
    ensures MovesCursor(a) ==> Reduce(s, a).selected == s.selected
    ensures !MovesCursor(a) ==> Reduce(s, a).cursor == s.cursor
    ensures a.Set? ==> Reduce(s, a).cursor == if a.id.None? || a.id.value in s.ids then a.id else s.cursor
  {
  }

  // What is selected afterwards, row by row.
  lemma SelectionChanges(s: Nav, id: string, x: string)
    requires Inv(s)
    ensures x in Reduce(s, Toggle(Some(id))).selected <==>
            if x == id && id in s.ids then x !in s.selected else x in s.selected
    ensures s.cursor.Some? ==> Reduce(s, Toggle(None)) == Reduce(s, Toggle(s.cursor))
    ensures s.cursor.None? ==> Reduce(s, Toggle(None)) == s
    ensures Reduce(s, Clear).selected == []
    ensures x in Reduce(s, ToggleAll).selected <==> x in s.ids && exists y :: y in s.ids && y !in s.selected
  {
    AllSelectedIff(s);
  }

  lemma AllSelectedIff(s: Nav)
    requires Inv(s)
    ensures |s.selected| == |s.ids| <==> forall y :: y in s.ids ==> y in s.selected
  {
    FilterAll(s.ids, Within(s.selected));
  }

  // A refetch keeps the cursor on its row and the selection on its rows, as
  // far as they are still there.
  lemma SyncKeepsRows(s: Nav, ids: seq<string>, x: string)
    requires Inv(s)
    ensures Reduce(s, Sync(ids)).ids == ids
    ensures s.cursor.Some? && s.cursor.value in ids ==> Reduce(s, Sync(ids)).cursor == s.cursor
    ensures s.cursor.None? || ids == [] ==> Reduce(s, Sync(ids)).cursor == None
    ensures x in Reduce(s, Sync(ids)).selected <==> x in s.selected && x in ids
  {
  }
}
