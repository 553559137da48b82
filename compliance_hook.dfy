/**
 * The compliance-status hook: the four checklist items, the two-phase check (mark as checking,
 * then record the random outcome when the timer fires), and the mirror of the items in browser
 * storage. `JSON.parse`, `JSON.stringify`, `Math.random` and the clock are parameters.
 */
module ComplianceHook {
  import opened Outcomes

  datatype Status = Compliant | NonCompliant | Checking | Unknown

  /** `lastChecked` is the time of the last finished check, absent before one. */
  datatype ComplianceItem = ComplianceItem(id: string, title: string, description: string, status: Status, lastChecked: Option<nat>)

  /** What `JSON.parse` makes of the stored text, as far as the hook can tell. */
  datatype Parsed = ParseFailure | NotAnArray | ItemArray(items: seq<ComplianceItem>)

  /** The items the hook starts from (long texts are written in pieces). */
  function InitialItems(): seq<ComplianceItem> {
    [ ComplianceItem("1", "GDPR Compliance", "Ensure data processing follows GDPR regulations", Unknown, None),
      ComplianceItem("2", "PCI DSS Compliance", "Payment Card Industry Data Security Standard", Unknown, None),
      ComplianceItem("3", "HIPAA Compliance", "Health Insurance Portability and Accountability Act", Unknown, None),
      ComplianceItem("4", "SSL Certificate", "Valid and up-to-date SSL certificate", Unknown, None) ]
  }

  /** Four items with ids `'1'` to `'4'`, none of them checked yet. */
  lemma InitialItemsUnknown()
    ensures |InitialItems()| == 4
    ensures forall k :: 0 <= k < 4 ==> InitialItems()[k].id == [('1' as int + k) as char]
    ensures forall it :: it in InitialItems() ==> it.status == Unknown && it.lastChecked == None
  {
    var xs := InitialItems();
    assert |xs| == 4;
    forall k | 0 <= k < 4 ensures xs[k].id == [('1' as int + k) as char] && xs[k].status == Unknown && xs[k].lastChecked == None {
    }
    forall it | it in xs ensures it.status == Unknown && it.lastChecked == None {
      var k :| 0 <= k < |xs| && xs[k] == it;
    }
  }

  /** The first phase: every item with that id becomes `'checking'`; the rest are untouched. */
  function MarkChecking(items: seq<ComplianceItem>, itemId: string): (r: seq<ComplianceItem>)
    ensures |r| == |items|
    ensures forall i :: 0 <= i < |r| && items[i].id == itemId ==> r[i] == items[i].(status := Checking)
    ensures forall i :: 0 <= i < |r| && items[i].id != itemId ==> r[i] == items[i]
  {
    if items == [] then []
    else
      var head := if items[0].id == itemId then items[0].(status := Checking) else items[0];
      [head] + MarkChecking(items[1..], itemId)
  }

  /** The outcome the timer draws: `Math.random() > 0.3`. */
  function Outcome(draw: real): bool {
    draw > 3.0 / 10.0
  }

  function ResultStatus(isCompliant: bool): (s: Status)
    ensures s == Compliant || s == NonCompliant
    ensures s == Compliant <==> isCompliant
  {
    if isCompliant then Compliant else NonCompliant
  }

  /**
   * The second phase: every item with that id gets the outcome and the check time; its id,
   * title and description stay as they were, and so does every other item.
   */
  function MarkResult(items: seq<ComplianceItem>, itemId: string, isCompliant: bool, now: nat): (r: seq<ComplianceItem>)
    ensures |r| == |items|
    ensures forall i :: 0 <= i < |r| && items[i].id == itemId ==>
      r[i] == items[i].(status := ResultStatus(isCompliant), lastChecked := Some(now))
    ensures forall i :: 0 <= i < |r| && items[i].id != itemId ==> r[i] == items[i]
  {
    if items == [] then []
    else
      var head := if items[0].id == itemId then items[0].(status := ResultStatus(isCompliant), lastChecked := Some(now)) else items[0];
      [head] + MarkResult(items[1..], itemId, isCompliant, now)
  }

  /** An id that names no item leaves the list as it was, in both phases. */
  lemma {:induction false} UnknownIdUnchanged(items: seq<ComplianceItem>, itemId: string, isCompliant: bool, now: nat)
    requires forall it :: it in items ==> it.id != itemId
    ensures MarkChecking(items, itemId) == items
    ensures MarkResult(items, itemId, isCompliant, now) == items
  {
    var c := MarkChecking(items, itemId);
    var m := MarkResult(items, itemId, isCompliant, now);
    assert forall i :: 0 <= i < |items| ==> items[i] in items;
    assert c == items;
    assert m == items;
  }

  /** Both phases keep the ids in place, so the list keeps its order. */
  lemma PhasesKeepIds(items: seq<ComplianceItem>, itemId: string, isCompliant: bool, now: nat)
    ensures forall i :: 0 <= i < |items| ==> MarkChecking(items, itemId)[i].id == items[i].id
    ensures forall i :: 0 <= i < |items| ==> MarkResult(MarkChecking(items, itemId), itemId, isCompliant, now)[i].id == items[i].id
  {
  }

  /**
   * A whole check: the item with that id ends with the drawn outcome, whatever its earlier
   * status, even with `'checking'` in between.
   */
  lemma CheckRecordsOutcome(items: seq<ComplianceItem>, itemId: string, draw: real, now: nat, i: nat)
    requires i < |items| && items[i].id == itemId
    ensures var r := MarkResult(MarkChecking(items, itemId), itemId, Outcome(draw), now);
      r[i].status == (if draw > 3.0 / 10.0 then Compliant else NonCompliant) && r[i].lastChecked == Some(now)
      && r[i].title == items[i].title && r[i].description == items[i].description
  {
  }

  /**
   * The mount-time load: stored text that is present and non-empty, and parses to an array,
   * replaces the items; anything else leaves them.
   */
  function LoadedItems(saved: Option<string>, current: seq<ComplianceItem>, parse: string -> Parsed): (r: seq<ComplianceItem>)
    ensures r != current ==> saved.Some? && saved.value != "" && parse(saved.value).ItemArray? && r == parse(saved.value).items
    ensures saved.Some? && saved.value != "" && parse(saved.value).ItemArray? ==> r == parse(saved.value).items
  {
    match saved
    case None => current
    case Some(text) =>
      if text == "" then current
      else match parse(text)
        case ItemArray(xs) => xs
        case _ => current
  }

  /** Text that fails to parse, or parses to something other than an array, is ignored. */
  lemma BadStorageIgnored(text: string, current: seq<ComplianceItem>, parse: string -> Parsed)
    requires parse(text) == ParseFailure || parse(text) == NotAnArray
    ensures LoadedItems(Some(text), current, parse) == current
  {
  }

  /** The hook's state: the items and the `complianceStatus` entry of browser storage. */
  class Hook {
    var items: seq<ComplianceItem>
    var storage: Option<string>

    /** First render: the initial items; storage is whatever the browser holds. */
    constructor (storage: Option<string>)
      ensures items == InitialItems() && this.storage == storage
    {
      items := InitialItems();
      this.storage := storage;
    }

    /** The effect that writes every new list of items back to storage. */
    method Save(stringify: seq<ComplianceItem> -> string)
      modifies this
      ensures items == old(items) && storage == Some(stringify(items))
    {
      storage := Some(stringify(items));
    }

    /** The two mount effects: load from storage, then save the (possibly replaced) items. */
    method Mount(parse: string -> Parsed, stringify: seq<ComplianceItem> -> string)
      modifies this
      ensures items == LoadedItems(old(storage), old(items), parse)
      ensures storage == Some(stringify(items))
    {
      items := LoadedItems(storage, items, parse);
      Save(stringify);
    }

    /** `checkCompliance`, first phase. */
    method CheckCompliance(itemId: string, stringify: seq<ComplianceItem> -> string)
      modifies this
      ensures items == MarkChecking(old(items), itemId)
      ensures storage == Some(stringify(items))
    {
      items := MarkChecking(items, itemId);
      Save(stringify);
    }

    /** The timer callback: `draw` is `Math.random()`, `now` is `new Date()`. */
    method FinishCheck(itemId: string, draw: real, now: nat, stringify: seq<ComplianceItem> -> string)
      modifies this
      ensures items == MarkResult(old(items), itemId, Outcome(draw), now)
      ensures storage == Some(stringify(items))
    {
      items := MarkResult(items, itemId, Outcome(draw), now);
      Save(stringify);
    }
  }

  /** No item of the list has been checked: none carries a `Date`. */
  predicate Unchecked(items: seq<ComplianceItem>) {
    forall it :: it in items ==> it.lastChecked == None
  }

  /**
   * When `JSON.parse` undoes `JSON.stringify` on lists of unchecked items, remounting on the saved
   * storage brings back the unchecked items that were saved. A checked item's `Date` would come
   * back as a string, so the round trip is not claimed for it.
   */
  lemma ReloadRestores(saved: seq<ComplianceItem>, current: seq<ComplianceItem>,
                       parse: string -> Parsed, stringify: seq<ComplianceItem> -> string)
    requires forall xs :: Unchecked(xs) ==> parse(stringify(xs)) == ItemArray(xs)
    requires Unchecked(saved) && stringify(saved) != ""
    ensures LoadedItems(Some(stringify(saved)), current, parse) == saved
  {
  }

  /** The initial items are unchecked, and the first phase of a check keeps a list unchecked. */
  lemma {:induction false} CheckingKeepsUnchecked(items: seq<ComplianceItem>, itemId: string)
    requires Unchecked(items)
    ensures Unchecked(InitialItems())
    ensures Unchecked(MarkChecking(items, itemId))
  {
    InitialItemsUnknown();
    var r := MarkChecking(items, itemId);
    forall it | it in r ensures it.lastChecked == None {
      var i :| 0 <= i < |r| && r[i] == it;
      assert items[i] in items;
    }
  }
}
