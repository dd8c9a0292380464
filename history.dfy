/**
 * The conversation history buffer (`History` in
 * src/marvin/utilities/history.py): a list of messages that keeps message ids
 * unique, optionally keeps only the newest `max_messages` entries, and hands
 * out filtered, sliced copies of itself.
 */
module MarvinHistory {
  import opened Wrappers
  import opened PyList

  /** A role name; the role type itself is not part of this model. */
  type Role = string

  /** A message, reduced to the three attributes the buffer looks at. */
  datatype Message = Message(id: string, timestamp: int, role: Role)

  /**
   * `HistoryFilter`: the roles to keep (an empty list keeps every role) and
   * optional inclusive bounds on the timestamp.
   */
  datatype HistoryFilter = HistoryFilter(roleIn: seq<Role>, timestampGe: Option<int>, timestampLe: Option<int>)

  /**
   * What it means for a message to pass a filter: every condition that is set
   * holds. The default filter (no roles, no bounds) lets every message through.
   */
  predicate Matches(f: HistoryFilter, m: Message): (r: bool)
    ensures f.roleIn == [] && f.timestampGe.None? && f.timestampLe.None? ==> r
  {
    && (f.timestampGe.Some? ==> m.timestamp >= f.timestampGe.value)
    && (f.timestampLe.Some? ==> m.timestamp <= f.timestampLe.value)
    && (f.roleIn != [] ==> m.role in f.roleIn)
  }

  /** Some stored message carries this id. */
  predicate HasId(msgs: seq<Message>, id: string) {
    exists i :: 0 <= i < |msgs| && msgs[i].id == id
  }

  /** No two stored messages share an id. */
  predicate UniqueIds(msgs: seq<Message>) {
    forall i, j :: 0 <= i < j < |msgs| ==> msgs[i].id != msgs[j].id
  }

  /**
   * The `any(...)` scan of `add_message`: walks the messages and stops at the
   * first one whose id equals `id`.
   */
  method ContainsId(msgs: seq<Message>, id: string) returns (found: bool)
    ensures found <==> HasId(msgs, id)
  {
    var i := 0;
    found := false;
    while i < |msgs| && !found
      invariant 0 <= i <= |msgs|
      invariant found <==> exists k :: 0 <= k < i && msgs[k].id == id
    {
      found := msgs[i].id == id;
      i := i + 1;
    }
  }

  /** The list `add_message` leaves behind, given the list before and the `max_messages` setting. */
  function AddedMessages(msgs: seq<Message>, maxMessages: Option<int>, m: Message): (r: seq<Message>)
    ensures HasId(msgs, m.id) ==> r == msgs
    ensures !HasId(msgs, m.id) ==> |r| <= |msgs| + 1 && r == (msgs + [m])[|msgs| + 1 - |r|..]
  {
    if HasId(msgs, m.id) then msgs
    else if maxMessages.None? then msgs + [m]
    else From(msgs + [m], -maxMessages.value)
  }

  /** `if filter.timestamp_ge:` keep the messages at or after the bound. */
  function KeepAtOrAfter(msgs: seq<Message>, bound: Option<int>): (r: seq<Message>)
    ensures IsSubseq(r, msgs)
    ensures forall x :: x in r ==> x in msgs && (bound.Some? ==> x.timestamp >= bound.value)
  {
    if bound.Some? then
      KeepMembers(msgs, (m: Message) => m.timestamp >= bound.value);
      Keep(msgs, (m: Message) => m.timestamp >= bound.value)
    else
      SubseqRefl(msgs);
      msgs
  }

  /** `if filter.timestamp_le:` keep the messages at or before the bound. */
  function KeepAtOrBefore(msgs: seq<Message>, bound: Option<int>): (r: seq<Message>)
    ensures IsSubseq(r, msgs)
    ensures forall x :: x in r ==> x in msgs && (bound.Some? ==> x.timestamp <= bound.value)
  {
    if bound.Some? then
      KeepMembers(msgs, (m: Message) => m.timestamp <= bound.value);
      Keep(msgs, (m: Message) => m.timestamp <= bound.value)
    else
      SubseqRefl(msgs);
      msgs
  }

  /** `if filter.role_in:` keep the messages whose role is listed; an empty list keeps all. */
  function KeepRoles(msgs: seq<Message>, roles: seq<Role>): (r: seq<Message>)
    ensures IsSubseq(r, msgs)
    ensures forall x :: x in r ==> x in msgs && (roles != [] ==> x.role in roles)
  {
    if roles != [] then
      KeepMembers(msgs, (m: Message) => m.role in roles);
      Keep(msgs, (m: Message) => m.role in roles)
    else
      SubseqRefl(msgs);
      msgs
  }

  /** The three comprehensions of `get_messages`, applied in the order the source applies them. */
  function ApplyFilter(msgs: seq<Message>, f: HistoryFilter): (r: seq<Message>)
    ensures IsSubseq(r, msgs)
    ensures forall i :: 0 <= i < |r| ==> Matches(f, r[i])
  {
    var afterGe := KeepAtOrAfter(msgs, f.timestampGe);
    var afterLe := KeepAtOrBefore(afterGe, f.timestampLe);
    var r := KeepRoles(afterLe, f.roleIn);
    SubseqTrans(afterLe, afterGe, msgs);
    SubseqTrans(r, afterLe, msgs);
    assert forall i :: 0 <= i < |r| ==> r[i] in r;
    r
  }

  /** The filtering step of `get_messages`: only done when a filter is given. */
  function Filtered(msgs: seq<Message>, filter: Option<HistoryFilter>): (r: seq<Message>)
    ensures filter.None? ==> r == msgs
    ensures IsSubseq(r, msgs)
    ensures forall i :: 0 <= i < |r| ==> filter.None? || Matches(filter.value, r[i])
  {
    if filter.Some? then ApplyFilter(msgs, filter.value) else SubseqRefl(msgs); msgs
  }

  /** The slicing steps of `get_messages`: `xs[:-skip]` when `skip` is truthy, then `xs[-n:]` when `n` is not None. */
  function Sliced(xs: seq<Message>, n: Option<int>, skip: Option<int>): (r: seq<Message>)
    ensures exists lo, hi :: 0 <= lo <= hi <= |xs| && r == xs[lo..hi]
    ensures IsSubseq(r, xs)
    ensures forall i :: 0 <= i < |r| ==> r[i] in xs
  {
    var skipped := if skip.Some? && skip.value != 0 then Upto(xs, -skip.value) else xs;
    var r := if n.Some? then From(skipped, -n.value) else skipped;
    WindowFacts(xs, skipped, r);
    r
  }

  /** What `get_messages(n, skip, filter)` returns for the stored list `msgs`. */
  function Select(msgs: seq<Message>, n: Option<int>, skip: Option<int>, filter: Option<HistoryFilter>): (r: seq<Message>)
    ensures IsSubseq(r, msgs)
    ensures forall i :: 0 <= i < |r| ==> filter.None? || Matches(filter.value, r[i])
  {
    var F := Filtered(msgs, filter);
    var r := Sliced(F, n, skip);
    SubseqTrans(r, F, msgs);
    r
  }

  /** The messages that pass an optional filter, in stored order. */
  function Admitted(msgs: seq<Message>, filter: Option<HistoryFilter>): seq<Message> {
    Keep(msgs, (m: Message) => filter.None? || Matches(filter.value, m))
  }

  class History {
    var messages: seq<Message>
    var maxMessages: Option<int>

    constructor (messages: seq<Message>, maxMessages: Option<int>)
      ensures this.messages == messages && this.maxMessages == maxMessages
    {
      this.messages := messages;
      this.maxMessages := maxMessages;
    }

    /**
     * `add_message`: appends `m` unless its id is already stored, then cuts the
     * list down to its last `max_messages` entries when that is set.
     */
    method AddMessage(m: Message)
      modifies this
      ensures messages == AddedMessages(old(messages), old(maxMessages), m)
      ensures maxMessages == old(maxMessages)
      ensures UniqueIds(old(messages)) ==> UniqueIds(messages)
    {
      ghost var before := messages;
      var present := ContainsId(messages, m.id);
      if !present {
        messages := messages + [m];
        if maxMessages.Some? {
          messages := From(messages, -maxMessages.value);
        }
      }
      assert messages == AddedMessages(before, maxMessages, m);
      if UniqueIds(before) {
        AddKeepsIdsUnique(before, maxMessages, m);
      }
    }

    /**
     * `get_messages`: a copy of the stored list, filtered, with the last `skip`
     * messages dropped and then the last `n` kept. Reading only, it leaves the
     * buffer as it was.
     */
    function GetMessages(n: Option<int>, skip: Option<int>, filter: Option<HistoryFilter>): (r: seq<Message>)
      reads this
      ensures IsSubseq(r, messages)
      ensures forall i :: 0 <= i < |r| ==> filter.None? || Matches(filter.value, r[i])
    {
      Select(messages, n, skip, filter)
    }

    /** `clear`: empties the stored list. */
    method Clear()
      modifies this
      ensures messages == [] && maxMessages == old(maxMessages)
    {
      messages := [];
    }
  }

  // ----- add_message -----

  /** `add_message` keeps the ids of the stored messages pairwise distinct. */
  lemma AddKeepsIdsUnique(msgs: seq<Message>, maxMessages: Option<int>, m: Message)
    requires UniqueIds(msgs)
    ensures UniqueIds(AddedMessages(msgs, maxMessages, m))
  {
    if !HasId(msgs, m.id) {
      var all := msgs + [m];
      assert UniqueIds(all) by {
        forall i, j | 0 <= i < j < |all| ensures all[i].id != all[j].id {
          if j == |msgs| {
            assert all[i] == msgs[i];
          }
        }
      }
      var r := AddedMessages(msgs, maxMessages, m);
      var off := |all| - |r|;
      assert r == all[off..];
      forall i, j | 0 <= i < j < |r| ensures r[i].id != r[j].id {
        assert r[i] == all[off + i] && r[j] == all[off + j];
      }
    }
  }

  /**
   * A new message with `max_messages` of None or 0 is appended and nothing is
   * cut (`xs[-0:]` is the whole list).
   */
  lemma AddNewUntruncated(msgs: seq<Message>, maxMessages: Option<int>, m: Message)
    requires !HasId(msgs, m.id)
    requires maxMessages.None? || maxMessages.value == 0
    ensures AddedMessages(msgs, maxMessages, m) == msgs + [m]
  {
  }

  /**
   * A new message with `max_messages = k >= 1` leaves the last `min(|old| + 1, k)`
   * elements of `old + [m]`; so the list holds at most `k` messages and the new
   * message is always the newest.
   */
  lemma AddNewTruncated(msgs: seq<Message>, k: int, m: Message)
    requires !HasId(msgs, m.id) && k >= 1
    ensures var r := AddedMessages(msgs, Some(k), m);
      && |r| == Min(|msgs| + 1, k) && |r| <= k
      && r == (msgs + [m])[|msgs| + 1 - |r|..]
      && r[|r| - 1] == m
  {
    var r := AddedMessages(msgs, Some(k), m);
    assert r[|r| - 1] == (msgs + [m])[|msgs|];
  }

  /**
   * A negative `max_messages = -k` drops the first `k` elements of `old + [m]`
   * instead (Python's `xs[k:]`); with `k > |old|` even the new message goes.
   */
  lemma AddNewNegativeLimit(msgs: seq<Message>, k: int, m: Message)
    requires !HasId(msgs, m.id) && k >= 1
    ensures var r := AddedMessages(msgs, Some(-k), m);
      && r == (msgs + [m])[Min(k, |msgs| + 1)..]
      && (k > |msgs| <==> r == [])
  {
  }

  /** With `max_messages = k >= 1`, a list of at most `k` messages stays that way. */
  lemma AddKeepsBound(msgs: seq<Message>, k: int, m: Message)
    requires k >= 1 && |msgs| <= k
    ensures |AddedMessages(msgs, Some(k), m)| <= k
  {
  }

  // ----- get_messages -----

  /** The three comprehensions together keep exactly the messages that match the filter. */
  lemma ApplyFilterIsMatches(msgs: seq<Message>, f: HistoryFilter)
    ensures ApplyFilter(msgs, f) == Keep(msgs, (m: Message) => Matches(f, m))
  {
    var p1 := (m: Message) => f.timestampGe.None? || m.timestamp >= f.timestampGe.value;
    var p2 := (m: Message) => f.timestampLe.None? || m.timestamp <= f.timestampLe.value;
    var p3 := (m: Message) => f.roleIn == [] || m.role in f.roleIn;
    var p12 := (m: Message) => p1(m) && p2(m);
    var all := (m: Message) => Matches(f, m);
    var afterGe := KeepAtOrAfter(msgs, f.timestampGe);
    var afterLe := KeepAtOrBefore(afterGe, f.timestampLe);
    assert afterGe == Keep(msgs, p1) by {
      if f.timestampGe.None? { KeepAll(msgs, p1); } else { KeepSameCondition(msgs, (m: Message) => m.timestamp >= f.timestampGe.value, p1); }
    }
    assert afterLe == Keep(afterGe, p2) by {
      if f.timestampLe.None? { KeepAll(afterGe, p2); } else { KeepSameCondition(afterGe, (m: Message) => m.timestamp <= f.timestampLe.value, p2); }
    }
    assert ApplyFilter(msgs, f) == Keep(afterLe, p3) by {
      if f.roleIn == [] { KeepAll(afterLe, p3); } else { KeepSameCondition(afterLe, (m: Message) => m.role in f.roleIn, p3); }
    }
    KeepKeep(msgs, p1, p2, p12);
    KeepKeep(msgs, p12, p3, all);
  }

  /** The filtering step of `get_messages` yields `Admitted`. */
  lemma FilteredIsAdmitted(msgs: seq<Message>, filter: Option<HistoryFilter>)
    ensures Filtered(msgs, filter) == Admitted(msgs, filter)
  {
    var p := (m: Message) => filter.None? || Matches(filter.value, m);
    if filter.None? {
      KeepAll(msgs, p);
    } else {
      ApplyFilterIsMatches(msgs, filter.value);
      KeepSameCondition(msgs, (m: Message) => Matches(filter.value, m), p);
    }
  }

  /**
   * The slicing steps for non-negative `n` and `skip`: a `skip = s > 0` drops
   * the last `s` messages (everything when `s >= |xs|`) and `None` or 0 drops
   * nothing; then `n >= 1` keeps the last `min(n, remaining)` and `n` of
   * `None` or 0 keeps all that remain.
   */
  lemma SlicedNonNegative(xs: seq<Message>, n: Option<int>, skip: Option<int>)
    requires n.Some? ==> n.value >= 0
    requires skip.Some? ==> skip.value >= 0
    ensures var stop := if skip.Some? && skip.value > 0 then Max(0, |xs| - skip.value) else |xs|;
      var start := if n.Some? && n.value >= 1 then Max(0, stop - n.value) else 0;
      var r := Sliced(xs, n, skip);
      && r == xs[start..stop]
      && (skip.Some? && skip.value >= |xs| ==> r == [])
      && (n.Some? && n.value >= 1 ==> |r| == Min(n.value, stop))
      && ((skip.None? || skip.value == 0) && (n.None? || n.value == 0) ==> r == xs)
  {
    var stop := if skip.Some? && skip.value > 0 then Max(0, |xs| - skip.value) else |xs|;
    var skipped := if skip.Some? && skip.value != 0 then Upto(xs, -skip.value) else xs;
    assert skipped == xs[..stop];
  }

  /**
   * `get_messages` filters first and slices afterwards: with `F` the admitted
   * messages, the result is `F` with the slicing steps applied.
   */
  lemma SelectWindow(msgs: seq<Message>, n: Option<int>, skip: Option<int>, filter: Option<HistoryFilter>)
    requires n.Some? ==> n.value >= 0
    requires skip.Some? ==> skip.value >= 0
    ensures var F := Admitted(msgs, filter);
      var stop := if skip.Some? && skip.value > 0 then Max(0, |F| - skip.value) else |F|;
      var start := if n.Some? && n.value >= 1 then Max(0, stop - n.value) else 0;
      Select(msgs, n, skip, filter) == F[start..stop]
  {
    FilteredIsAdmitted(msgs, filter);
    SlicedNonNegative(Admitted(msgs, filter), n, skip);
  }
}
