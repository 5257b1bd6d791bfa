/**
 * Editing one string-list field of an entry (src/hooks/use-array-operations.ts):
 * change, delete, append and move an item. Each handler copies the list,
 * changes the copy and hands back the entry with only that field replaced;
 * a missing list counts as `[]`.
 */
module ArrayOperations {
  import opened Wrappers
  import opened McpConfig

  /** The string-list fields an entry can carry. */
  datatype ListField = Args | AutoApprove | WaitFor

  datatype Direction = Up | Down

  /** The field's value, `None` when the key is missing. */
  function FieldOf(e: Entry, f: ListField): Option<seq<string>> {
    match f
    case Args => e.args
    case AutoApprove => e.autoApprove
    case WaitFor => e.waitFor
  }

  /** `serverConfig[fieldKey] || []`. */
  function ListOf(e: Entry, f: ListField): seq<string> {
    FieldOf(e, f).GetOr([])
  }

  /** `{ ...serverConfig, [fieldKey]: v }`. */
  function WithField(e: Entry, f: ListField, v: Option<seq<string>>): (r: Entry)
    ensures FieldOf(r, f) == v
  {
    match f
    case Args => e.(args := v)
    case AutoApprove => e.(autoApprove := v)
    case WaitFor => e.(waitFor := v)
  }

  /** The two entries agree on every key except `f`. */
  predicate SameExcept(a: Entry, b: Entry, f: ListField) {
    WithField(a, f, None) == WithField(b, f, None)
  }

  /** Where `splice(index, 1)` starts: a negative index counts from the end. */
  function SpliceStart(index: int, len: nat): (start: nat)
    ensures start <= len
    ensures 0 <= index <= len ==> start == index
    ensures index > len ==> start == len
    ensures index < 0 && len + index >= 0 ==> start == len + index
    ensures len + index < 0 ==> start == 0
  {
    if index < 0 then (if len + index < 0 then 0 else len + index)
    else if index > len then len
    else index
  }

  /** The list with positions `i` and `j` exchanged. */
  function Swap(xs: seq<string>, i: nat, j: nat): (r: seq<string>)
    requires i < |xs| && j < |xs|
    ensures |r| == |xs| && r[i] == xs[j] && r[j] == xs[i]
    ensures forall k :: 0 <= k < |xs| && k != i && k != j ==> r[k] == xs[k]
  {
    xs[i := xs[j]][j := xs[i]]
  }

  /** `handleArrayItemChange`: overwrite the item at `index`. */
  function ArrayItemChange(e: Entry, f: ListField, index: int, v: string): (r: Entry)
    requires 0 <= index < |ListOf(e, f)|
    ensures SameExcept(r, e, f) && FieldOf(r, f).Some?
    ensures |ListOf(r, f)| == |ListOf(e, f)| && ListOf(r, f)[index] == v
    ensures forall k :: 0 <= k < |ListOf(e, f)| && k != index ==> ListOf(r, f)[k] == ListOf(e, f)[k]
  {
    WithField(e, f, Some(ListOf(e, f)[index := v]))
  }

  /** `handleArrayItemDelete`: `splice(index, 1)` on a copy. */
  function ArrayItemDelete(e: Entry, f: ListField, index: int): (r: Entry)
    ensures SameExcept(r, e, f) && FieldOf(r, f).Some?
    ensures 0 <= index < |ListOf(e, f)| ==>
      ListOf(r, f) == ListOf(e, f)[..index] + ListOf(e, f)[index + 1..]
    ensures index >= |ListOf(e, f)| ==> ListOf(r, f) == ListOf(e, f)
    ensures -|ListOf(e, f)| <= index < 0 ==>
      var k := |ListOf(e, f)| + index;
      ListOf(r, f) == ListOf(e, f)[..k] + ListOf(e, f)[k + 1..]
    ensures index < -|ListOf(e, f)| && ListOf(e, f) != [] ==> ListOf(r, f) == ListOf(e, f)[1..]
    ensures index < 0 && ListOf(e, f) == [] ==> ListOf(r, f) == []
  {
    var xs := ListOf(e, f);
    var s := SpliceStart(index, |xs|);
    WithField(e, f, Some(if s < |xs| then xs[..s] + xs[s + 1..] else xs))
  }

  /** `handleArrayItemAdd`: append one empty string. */
  function ArrayItemAdd(e: Entry, f: ListField): (r: Entry)
    ensures SameExcept(r, e, f) && FieldOf(r, f).Some?
    ensures |ListOf(r, f)| == |ListOf(e, f)| + 1
    ensures ListOf(r, f)[..|ListOf(e, f)|] == ListOf(e, f) && ListOf(r, f)[|ListOf(e, f)|] == ""
  {
    WithField(e, f, Some(ListOf(e, f) + [""]))
  }

  /** The index an item moves to. */
  function Target(index: int, d: Direction): int {
    if d == Up then index - 1 else index + 1
  }

  /**
   * `handleArrayItemMove`: swap the item with its neighbour above or below;
   * `None` when that neighbour does not exist, and no update is issued.
   */
  function ArrayItemMove(e: Entry, f: ListField, index: int, d: Direction): (r: Option<Entry>)
    requires 0 <= index < |ListOf(e, f)|
    ensures r.None? <==> !(0 <= Target(index, d) < |ListOf(e, f)|)
    ensures r.Some? ==> SameExcept(r.value, e, f) && FieldOf(r.value, f).Some?
    ensures r.Some? ==> ListOf(r.value, f) == Swap(ListOf(e, f), index, Target(index, d))
  {
    var xs := ListOf(e, f);
    var j := Target(index, d);
    if j < 0 || j >= |xs| then None
    else Some(WithField(e, f, Some(Swap(xs, index, j))))
  }

  /** Exchanging two positions keeps the multiset of items. */
  lemma {:induction false} SwapPermutes(xs: seq<string>, i: nat, j: nat)
    requires i < |xs| && j < |xs|
    ensures multiset(Swap(xs, i, j)) == multiset(xs)
  {
    var ys := xs[i := xs[j]];
    assert multiset(ys) == multiset(xs) - multiset{xs[i]} + multiset{xs[j]};
    assert ys[j] == xs[j] || i == j;
  }

  /** Moving only reorders: the list after a move is a permutation of the list before. */
  lemma MoveIsPermutation(e: Entry, f: ListField, index: int, d: Direction)
    requires 0 <= index < |ListOf(e, f)|
    requires ArrayItemMove(e, f, index, d).Some?
    ensures multiset(ListOf(ArrayItemMove(e, f, index, d).value, f)) == multiset(ListOf(e, f))
  {
    SwapPermutes(ListOf(e, f), index, Target(index, d));
  }

  /** Moving an item down and then moving it back up restores the entry exactly. */
  lemma MoveDownThenUp(e: Entry, f: ListField, index: int)
    requires 0 <= index && index + 1 < |ListOf(e, f)|
    ensures ArrayItemMove(e, f, index, Down).Some?
    ensures ArrayItemMove(ArrayItemMove(e, f, index, Down).value, f, index + 1, Up) == Some(e)
  {
    var xs := ListOf(e, f);
    var e1 := ArrayItemMove(e, f, index, Down).value;
    assert Swap(Swap(xs, index, index + 1), index + 1, index) == xs;
    assert FieldOf(e, f) == Some(xs);
    match f
    case Args =>
    case AutoApprove =>
    case WaitFor =>
  }

  /** Deleting keeps the other items in their relative order. */
  lemma DeleteKeepsOrder(e: Entry, f: ListField, index: int, k: int)
    requires 0 <= index < |ListOf(e, f)| && 0 <= k < |ListOf(e, f)| - 1
    ensures |ListOf(ArrayItemDelete(e, f, index), f)| == |ListOf(e, f)| - 1
    ensures ListOf(ArrayItemDelete(e, f, index), f)[k] ==
      ListOf(e, f)[if k < index then k else k + 1]
  {
  }
}
