/** Merging a batch of calendar rows before the upsert
    (internal/repository/corporate_action_repository.go). */
module CorporateActions {
  import opened Wrappers
  import opened StringSearch

  datatype Date = Date(day: int, seconds: int)
  datatype Details = Details(name: string, currency: string, market: string)
  datatype Action = Action(
    symbol: string, kind: string, eventDate: Date, note: string, amount: Option<real>,
    cumDate: Option<Date>, recDate: Option<Date>, payDate: Option<Date>, details: Details)

  /** The unique constraint's target; only the day of the event counts. */
  datatype Key = Key(symbol: string, kind: string, day: int)

  function KeyOf(action: Action): Key {
    Key(action.symbol, action.kind, action.eventDate.day)
  }

  // ----- The loop -----

  predicate AddsToNote(note: string, more: string) {
    note != more && more != "" && !Contains(note, more)
  }

  function NoteWith(note: string, more: string): string {
    if !AddsToNote(note, more) then note
    else if note == "" then more
    else note + "; " + more
  }

  function Or<T>(first: Option<T>, second: Option<T>): Option<T> {
    if first.None? then second else first
  }

  function Absorbed(existing: Action, a: Action): Action {
    existing.(
      note := NoteWith(existing.note, a.note),
      amount := Or(existing.amount, a.amount),
      cumDate := Or(existing.cumDate, a.cumDate),
      recDate := Or(existing.recDate, a.recDate),
      payDate := Or(existing.payDate, a.payDate))
  }

  datatype Merge = Merge(order: seq<Key>, merged: map<Key, Action>)

  function Added(state: Merge, a: Action): Merge {
    if KeyOf(a) in state.merged then
      state.(merged := state.merged[KeyOf(a) := Absorbed(state.merged[KeyOf(a)], a)])
    else
      Merge(state.order + [KeyOf(a)], state.merged[KeyOf(a) := a])
  }

  function Merged(actions: seq<Action>): Merge {
    if actions == [] then Merge([], map[])
    else Added(Merged(actions[..|actions| - 1]), actions[|actions| - 1])
  }

  function Output(state: Merge): seq<Action>
    requires ListsTheMap(state)
  {
    seq(|state.order|, i requires 0 <= i < |state.order| => state.merged[state.order[i]])
  }

  /** The keys met so far are in the map, and listed once each. */
  ghost predicate ListsTheMap(state: Merge) {
    && (forall k :: k in state.order <==> k in state.merged)
    && (forall i, j :: 0 <= i < j < |state.order| ==> state.order[i] != state.order[j])
  }

  lemma AddedListsTheMap(state: Merge, a: Action)
    requires ListsTheMap(state)
    ensures ListsTheMap(Added(state, a))
  {
  }

  lemma {:induction false} OrderListsTheMap(actions: seq<Action>)
    ensures ListsTheMap(Merged(actions))
  {
    if actions != [] {
      OrderListsTheMap(actions[..|actions| - 1]);
      AddedListsTheMap(Merged(actions[..|actions| - 1]), actions[|actions| - 1]);
    }
  }

  function Deduped(actions: seq<Action>): seq<Action> {
    OrderListsTheMap(actions);
    Output(Merged(actions))
  }

  method DedupeCorporateActions(actions: seq<Action>) returns (out: seq<Action>)
    ensures out == Deduped(actions)
  {
    var order: seq<Key> := [];
    var merged: map<Key, Action> := map[];
    for i := 0 to |actions|
      invariant Merge(order, merged) == Merged(actions[..i])
    {
      assert actions[..i + 1][..i] == actions[..i];
      var a := actions[i];
      var k := KeyOf(a);
      if k !in merged {
        merged := merged[k := a];
        order := order + [k];
        continue;
      }
      var existing := merged[k];
      if existing.note != a.note && a.note != "" && !Contains(existing.note, a.note) {
        if existing.note == "" {
          existing := existing.(note := a.note);
        } else {
          existing := existing.(note := existing.note + "; " + a.note);
        }
      }
      if existing.amount.None? {
        existing := existing.(amount := a.amount);
      }
      if existing.cumDate.None? {
        existing := existing.(cumDate := a.cumDate);
      }
      if existing.recDate.None? {
        existing := existing.(recDate := a.recDate);
      }
      if existing.payDate.None? {
        existing := existing.(payDate := a.payDate);
      }
      merged := merged[k := existing];
    }
    assert actions[..|actions|] == actions;
    OrderListsTheMap(actions);
    out := [];
    for i := 0 to |order|
      invariant out == Deduped(actions)[..i]
    {
      out := out + [merged[order[i]]];
    }
  }

  // ----- What a group becomes -----

  /** The first row of the key. */
  function First(actions: seq<Action>, k: Key): Option<Action> {
    if actions == [] then None
    else
      var before := First(actions[..|actions| - 1], k);
      var last := actions[|actions| - 1];
      if before.None? && KeyOf(last) == k then Some(last) else before
  }

  /** The first amount that a row of the key gives. */
  function FirstAmount(actions: seq<Action>, k: Key): Option<real> {
    if actions == [] then None
    else
      var before := FirstAmount(actions[..|actions| - 1], k);
      var last := actions[|actions| - 1];
      if before.None? && KeyOf(last) == k then last.amount else before
  }

  datatype DateField = Cum | Rec | Pay

  function DateOf(action: Action, field: DateField): Option<Date> {
    match field
    case Cum => action.cumDate
    case Rec => action.recDate
    case Pay => action.payDate
  }

  /** The first date that a row of the key gives. */
  function FirstDate(actions: seq<Action>, k: Key, field: DateField): Option<Date> {
    if actions == [] then None
    else
      var before := FirstDate(actions[..|actions| - 1], k, field);
      var last := actions[|actions| - 1];
      if before.None? && KeyOf(last) == k then DateOf(last, field) else before
  }

  /** Notes of the key's rows that were not already in the text. */
  function Kept(actions: seq<Action>, k: Key): seq<string> {
    if actions == [] then []
    else
      var before := Kept(actions[..|actions| - 1], k);
      var last := actions[|actions| - 1];
      if KeyOf(last) == k && AddsToNote(Joined(before), last.note) then before + [last.note] else before
  }

  function Joined(notes: seq<string>): string {
    if notes == [] then ""
    else if |notes| == 1 then notes[0]
    else Joined(notes[..|notes| - 1]) + "; " + notes[|notes| - 1]
  }

  lemma JoinedSnoc(notes: seq<string>, note: string)
    requires forall i :: 0 <= i < |notes| ==> notes[i] != ""
    ensures Joined(notes + [note]) == if notes == [] then note else Joined(notes) + "; " + note
    ensures notes != [] ==> Joined(notes) != ""
  {
    assert (notes + [note])[..|notes|] == notes;
  }

  predicate HasKey(actions: seq<Action>, k: Key) {
    exists i :: 0 <= i < |actions| && KeyOf(actions[i]) == k
  }

  /** Each key's row is its first row with the kept notes, and with the first
      amount and dates that any of its rows gives. */
  predicate IsGroup(row: Action, actions: seq<Action>, k: Key) {
    && First(actions, k).Some?
    && row == First(actions, k).value.(
         note := Joined(Kept(actions, k)),
         amount := FirstAmount(actions, k),
         cumDate := FirstDate(actions, k, Cum),
         recDate := FirstDate(actions, k, Rec),
         payDate := FirstDate(actions, k, Pay))
  }

  lemma {:induction false} KeptNotes(actions: seq<Action>, k: Key)
    ensures forall i :: 0 <= i < |Kept(actions, k)| ==> Kept(actions, k)[i] != ""
    ensures !HasKey(actions, k) ==>
      First(actions, k).None? && Kept(actions, k) == [] && NoFields(actions, k)
  {
    if actions != [] {
      KeptNotes(actions[..|actions| - 1], k);
      HasKeySnoc(actions, k);
    }
  }

  predicate NoFields(actions: seq<Action>, k: Key) {
    && FirstAmount(actions, k).None?
    && FirstDate(actions, k, Cum).None?
    && FirstDate(actions, k, Rec).None?
    && FirstDate(actions, k, Pay).None?
  }

  lemma HasKeySnoc(actions: seq<Action>, k: Key)
    requires actions != []
    ensures HasKey(actions, k) <==>
      HasKey(actions[..|actions| - 1], k) || KeyOf(actions[|actions| - 1]) == k
  {
    var init := actions[..|actions| - 1];
    if HasKey(init, k) {
      var i :| 0 <= i < |init| && KeyOf(init[i]) == k;
      assert KeyOf(actions[i]) == k;
    }
    if HasKey(actions, k) {
      var i :| 0 <= i < |actions| && KeyOf(actions[i]) == k;
      assert i < |init| ==> KeyOf(init[i]) == k;
    }
  }

  lemma {:induction false} GroupsAreMerged(actions: seq<Action>, k: Key)
    ensures k in Merged(actions).merged <==> HasKey(actions, k)
    ensures k in Merged(actions).merged ==> IsGroup(Merged(actions).merged[k], actions, k)
  {
    if actions != [] {
      var init, last := actions[..|actions| - 1], actions[|actions| - 1];
      GroupsAreMerged(init, k);
      HasKeySnoc(actions, k);
      KeptNotes(init, k);
      JoinedSnoc(Kept(init, k), last.note);
    }
  }

  lemma {:induction false} FirstHasKey(actions: seq<Action>, k: Key)
    ensures First(actions, k).Some? ==> KeyOf(First(actions, k).value) == k
  {
    if actions != [] {
      FirstHasKey(actions[..|actions| - 1], k);
    }
  }

  lemma OutputKeys(actions: seq<Action>)
    ensures |Deduped(actions)| == |Merged(actions).order|
    ensures forall i :: 0 <= i < |Deduped(actions)| ==> KeyOf(Deduped(actions)[i]) == Merged(actions).order[i]
  {
    var state := Merged(actions);
    OrderListsTheMap(actions);
    forall i | 0 <= i < |state.order|
      ensures KeyOf(state.merged[state.order[i]]) == state.order[i]
    {
      assert state.order[i] in state.order;
      GroupsAreMerged(actions, state.order[i]);
      FirstHasKey(actions, state.order[i]);
    }
  }

  /** One row per key, carrying what its group said. */
  lemma DedupedGroups(actions: seq<Action>)
    ensures var out := Deduped(actions);
      && (forall i :: 0 <= i < |out| ==> IsGroup(out[i], actions, KeyOf(out[i])))
      && (forall i, j :: 0 <= i < j < |out| ==> KeyOf(out[i]) != KeyOf(out[j]))
      && (forall k :: HasKey(actions, k) <==> HasKey(out, k))
  {
    OrderListsTheMap(actions);
    OutputKeys(actions);
    var out, state := Deduped(actions), Merged(actions);
    forall i | 0 <= i < |out|
      ensures IsGroup(out[i], actions, KeyOf(out[i]))
    {
      assert state.order[i] in state.order;
      GroupsAreMerged(actions, state.order[i]);
    }
    forall k
      ensures HasKey(actions, k) <==> HasKey(out, k)
    {
      GroupsAreMerged(actions, k);
      if k in state.order {
        var i :| 0 <= i < |state.order| && state.order[i] == k;
        assert KeyOf(out[i]) == k;
      }
    }
  }

  // ----- What "first" means, and which rows belong together -----

  /** Same symbol, same kind, same day. */
  predicate SameEvent(a: Action, b: Action) {
    a.symbol == b.symbol && a.kind == b.kind && a.eventDate.day == b.eventDate.day
  }

  datatype Column = Amount | On(field: DateField)

  datatype Value = Money(amount: real) | Moment(date: Date)

  /** What a row says in a column that may be empty. */
  function Given(action: Action, column: Column): Option<Value> {
    match column
    case Amount => if action.amount.Some? then Some(Money(action.amount.value)) else None
    case On(field) => if DateOf(action, field).Some? then Some(Moment(DateOf(action, field).value)) else None
  }

  predicate GivesFirst(actions: seq<Action>, k: Key, column: Column, value: Option<Value>, i: int) {
    && 0 <= i < |actions| && KeyOf(actions[i]) == k && Given(actions[i], column) == value
    && forall j :: 0 <= j < i && KeyOf(actions[j]) == k ==> Given(actions[j], column).None?
  }

  /** The value is that of the first row of the key that gives one, if any does. */
  predicate IsFirstGiven(actions: seq<Action>, k: Key, column: Column, value: Option<Value>) {
    if value.None? then forall i :: 0 <= i < |actions| && KeyOf(actions[i]) == k ==> Given(actions[i], column).None?
    else exists i :: 0 <= i < |actions| && GivesFirst(actions, k, column, value, i)
  }

  lemma FirstGivenSnoc(actions: seq<Action>, k: Key, column: Column, before: Option<Value>)
    requires actions != [] && IsFirstGiven(actions[..|actions| - 1], k, column, before)
    ensures var last := actions[|actions| - 1];
      IsFirstGiven(actions, k, column,
        if before.None? && KeyOf(last) == k then Given(last, column) else before)
  {
    var n := |actions| - 1;
    var init := actions[..n];
    assert forall i :: 0 <= i < n ==> init[i] == actions[i];
    if before.Some? {
      var i :| 0 <= i < |init| && GivesFirst(init, k, column, before, i);
      assert GivesFirst(actions, k, column, before, i);
    } else if KeyOf(actions[n]) == k && Given(actions[n], column).Some? {
      assert GivesFirst(actions, k, column, Given(actions[n], column), n);
    }
  }

  /** The merged value of a column. */
  function MergedValue(actions: seq<Action>, k: Key, column: Column): Option<Value> {
    match column
    case Amount =>
      if FirstAmount(actions, k).Some? then Some(Money(FirstAmount(actions, k).value)) else None
    case On(field) =>
      if FirstDate(actions, k, field).Some? then Some(Moment(FirstDate(actions, k, field).value)) else None
  }

  lemma {:induction false} MergedValueIsFirst(actions: seq<Action>, k: Key, column: Column)
    ensures IsFirstGiven(actions, k, column, MergedValue(actions, k, column))
  {
    if actions != [] {
      var init := actions[..|actions| - 1];
      MergedValueIsFirst(init, k, column);
      FirstGivenSnoc(actions, k, column, MergedValue(init, k, column));
    }
  }

  predicate StartsGroup(actions: seq<Action>, i: int) {
    0 <= i < |actions| && forall j :: 0 <= j < i ==> !SameEvent(actions[j], actions[i])
  }

  lemma {:induction false} FirstStartsGroup(actions: seq<Action>, k: Key) returns (i: nat)
    requires First(actions, k).Some?
    ensures i < |actions| && actions[i] == First(actions, k).value && KeyOf(actions[i]) == k && StartsGroup(actions, i)
  {
    var n := |actions| - 1;
    var init := actions[..n];
    if First(init, k).Some? {
      i := FirstStartsGroup(init, k);
      assert forall j :: 0 <= j < n ==> init[j] == actions[j];
    } else {
      i := n;
      NoneOfTheKey(init, k);
      assert forall j :: 0 <= j < n ==> init[j] == actions[j];
    }
  }

  lemma {:induction false} NoneOfTheKey(actions: seq<Action>, k: Key)
    requires First(actions, k).None?
    ensures forall i :: 0 <= i < |actions| ==> KeyOf(actions[i]) != k
  {
    if actions != [] {
      NoneOfTheKey(actions[..|actions| - 1], k);
    }
  }

  /** The row with the values of the columns that may be empty, and the note, left open. */
  function Bare(action: Action): Action {
    action.(note := "", amount := None, cumDate := None, recDate := None, payDate := None)
  }

  lemma EveryEventHasARow(actions: seq<Action>, i: nat) returns (row: Action)
    requires i < |actions|
    ensures row in Deduped(actions) && SameEvent(row, actions[i])
  {
    DedupedGroups(actions);
    assert HasKey(actions, KeyOf(actions[i]));
    var j :| 0 <= j < |Deduped(actions)| && KeyOf(Deduped(actions)[j]) == KeyOf(actions[i]);
    row := Deduped(actions)[j];
  }

  /** Every event has exactly one row: it is the first of the event's rows, but for
      its note and for each of the optional columns, which hold the first value that
      any of the rows gives. */
  lemma RowsAreTheEvents(actions: seq<Action>, row: Action) returns (i: nat)
    requires row in Deduped(actions)
    ensures i < |actions| && StartsGroup(actions, i) && Bare(row) == Bare(actions[i])
    ensures forall column :: IsFirstGiven(actions, KeyOf(row), column, Given(row, column))
    ensures forall other :: other in Deduped(actions) && SameEvent(row, other) ==> other == row
  {
    DedupedGroups(actions);
    assert IsGroup(row, actions, KeyOf(row));
    i := FirstStartsGroup(actions, KeyOf(row));
    forall column ensures IsFirstGiven(actions, KeyOf(row), column, Given(row, column)) {
      MergedValueIsFirst(actions, KeyOf(row), column);
      assert Given(row, column) == MergedValue(actions, KeyOf(row), column);
    }
  }

  // ----- Order -----

  /** Where the key first appears. */
  function FirstIndex(actions: seq<Action>, k: Key): (i: nat)
    ensures i <= |actions|
    ensures i < |actions| ==> KeyOf(actions[i]) == k
    ensures forall j :: 0 <= j < i ==> KeyOf(actions[j]) != k
  {
    if actions == [] || KeyOf(actions[0]) == k then 0 else 1 + FirstIndex(actions[1..], k)
  }

  lemma FirstIndexSnoc(actions: seq<Action>, k: Key)
    requires actions != []
    ensures var init := actions[..|actions| - 1];
      && (HasKey(init, k) ==> FirstIndex(actions, k) == FirstIndex(init, k) < |init|)
      && (!HasKey(init, k) && KeyOf(actions[|init|]) == k ==> FirstIndex(actions, k) == |init|)
  {
    var init := actions[..|actions| - 1];
    var i := FirstIndex(actions, k);
    assert forall j :: 0 <= j < |init| ==> KeyOf(init[j]) == KeyOf(actions[j]);
    if HasKey(init, k) {
      var j :| 0 <= j < |init| && KeyOf(init[j]) == k;
      assert KeyOf(actions[j]) == k && i <= j;
      assert KeyOf(init[i]) == k;
    }
  }

  /** Another row does not move the first appearance of a key already listed. */
  lemma ListedKeysStay(actions: seq<Action>, i: nat)
    requires actions != [] && i < |Merged(actions[..|actions| - 1]).order|
    ensures var init := actions[..|actions| - 1];
      var k := Merged(init).order[i];
      FirstIndex(actions, k) == FirstIndex(init, k) < |init|
  {
    var init := actions[..|actions| - 1];
    var k := Merged(init).order[i];
    OrderListsTheMap(init);
    assert k in Merged(init).order;
    GroupsAreMerged(init, k);
    FirstIndexSnoc(actions, k);
  }

  lemma NewKeyIsLast(actions: seq<Action>)
    requires actions != [] && KeyOf(actions[|actions| - 1]) !in Merged(actions[..|actions| - 1]).merged
    ensures FirstIndex(actions, KeyOf(actions[|actions| - 1])) == |actions| - 1
  {
    var k := KeyOf(actions[|actions| - 1]);
    GroupsAreMerged(actions[..|actions| - 1], k);
    FirstIndexSnoc(actions, k);
  }

  lemma {:induction false} KeysKeepTheirOrder(actions: seq<Action>)
    ensures var order := Merged(actions).order;
      forall i, j :: 0 <= i < j < |order| ==> FirstIndex(actions, order[i]) < FirstIndex(actions, order[j])
  {
    if actions != [] {
      var init := actions[..|actions| - 1];
      var before := Merged(init).order;
      KeysKeepTheirOrder(init);
      forall i | 0 <= i < |before|
        ensures FirstIndex(actions, before[i]) == FirstIndex(init, before[i]) < |init|
      {
        ListedKeysStay(actions, i);
      }
      if KeyOf(actions[|init|]) !in Merged(init).merged {
        NewKeyIsLast(actions);
      }
    }
  }

  /** Rows come out in the order in which their keys first appeared. */
  lemma RowsKeepTheirOrder(actions: seq<Action>)
    ensures var out := Deduped(actions);
      forall i, j :: 0 <= i < j < |out| ==>
        FirstIndex(actions, KeyOf(out[i])) < FirstIndex(actions, KeyOf(out[j])) < |actions|
  {
    KeysKeepTheirOrder(actions);
    DedupedGroups(actions);
    OutputKeys(actions);
    var out := Deduped(actions);
    forall j | 0 <= j < |out|
      ensures FirstIndex(actions, KeyOf(out[j])) < |actions|
    {
      assert HasKey(out, KeyOf(out[j]));
    }
  }

  // ----- No agenda text is lost -----

  lemma ContainsSelf(note: string)
    ensures Contains(note, note)
  {
    assert OccursAt(note, note, 0);
  }

  lemma ContainsMore(note: string, after: string, part: string)
    requires Contains(note, part)
    ensures Contains(note + after, part)
  {
    var i :| 0 <= i <= |note| && OccursAt(note, part, i);
    assert (note + after)[i..i + |part|] == note[i..i + |part|];
    assert OccursAt(note + after, part, i);
  }

  lemma ContainsLast(note: string, part: string)
    ensures Contains(note + part, part)
  {
    assert OccursAt(note + part, part, |note|);
  }

  lemma NoteWithKeeps(note: string, more: string, part: string)
    ensures Contains(NoteWith(note, more), more)
    ensures Contains(note, part) ==> Contains(NoteWith(note, more), part)
  {
    if note == more {
      ContainsSelf(note);
    } else if more == "" {
      assert OccursAt(note, more, 0);
    } else if !Contains(note, more) {
      if note == "" {
        ContainsSelf(more);
        if Contains(note, part) {
          assert part == "";
          assert OccursAt(more, part, 0);
        }
      } else {
        ContainsLast(note + "; ", more);
        if Contains(note, part) {
          ContainsMore(note, "; ", part);
          ContainsMore(note + "; ", more, part);
        }
      }
    }
  }

  lemma {:induction false} NotesAreKept(actions: seq<Action>, i: nat)
    requires i < |actions|
    ensures KeyOf(actions[i]) in Merged(actions).merged
    ensures Contains(Merged(actions).merged[KeyOf(actions[i])].note, actions[i].note)
  {
    var init, last := actions[..|actions| - 1], actions[|actions| - 1];
    var state := Merged(init);
    if i < |init| {
      NotesAreKept(init, i);
      NoteWithKeeps(state.merged[KeyOf(actions[i])].note, last.note, actions[i].note);
    } else if KeyOf(last) in state.merged {
      NoteWithKeeps(state.merged[KeyOf(last)].note, last.note, "");
    } else {
      ContainsSelf(last.note);
    }
  }

  /** Every note can be read in the row of its key. */
  lemma NoNoteIsLost(actions: seq<Action>, i: nat)
    requires i < |actions|
    ensures exists j :: 0 <= j < |Deduped(actions)| &&
                        KeyOf(Deduped(actions)[j]) == KeyOf(actions[i]) &&
                        Contains(Deduped(actions)[j].note, actions[i].note)
  {
    var state, k := Merged(actions), KeyOf(actions[i]);
    NotesAreKept(actions, i);
    OrderListsTheMap(actions);
    OutputKeys(actions);
    assert k in state.order;
    var j :| 0 <= j < |state.order| && state.order[j] == k;
    assert Deduped(actions)[j] == state.merged[k];
  }

  // ----- Doing it twice -----

  lemma {:induction false} DistinctIsDeduped(actions: seq<Action>)
    requires forall i, j :: 0 <= i < j < |actions| ==> KeyOf(actions[i]) != KeyOf(actions[j])
    ensures Deduped(actions) == actions
  {
    if actions != [] {
      var init, last := actions[..|actions| - 1], actions[|actions| - 1];
      DistinctIsDeduped(init);
      OrderListsTheMap(init);
      GroupsAreMerged(init, KeyOf(last));
      assert Deduped(actions) == Deduped(init) + [last];
    }
  }

  /** The merged rows are left alone by a second pass: their keys do not repeat. */
  lemma DedupeIdempotent(actions: seq<Action>)
    ensures Deduped(Deduped(actions)) == Deduped(actions)
  {
    DedupedGroups(actions);
    DistinctIsDeduped(Deduped(actions));
  }
}
