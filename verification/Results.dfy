/** The account of a run: its items and how many of each kind. */
module Results {
  import opened RestartTypes

  /** How many items have a status. */
  ghost function Count(items: seq<ResourceResult>, status: ResourceStatus): nat {
    if items == [] then 0
    else Count(items[..|items| - 1], status) + if items[|items| - 1].status == status then 1 else 0
  }

  lemma CountSnoc(items: seq<ResourceResult>, item: ResourceResult, status: ResourceStatus)
    ensures Count(items + [item], status) == Count(items, status) + if item.status == status then 1 else 0
  {
    assert (items + [item])[..|items|] == items;
  }

  predicate NoneFailed(items: seq<ResourceResult>) {
    forall i :: 0 <= i < |items| ==> items[i].status != Failed
  }

  lemma {:induction false} CountZero(items: seq<ResourceResult>, status: ResourceStatus)
    ensures (Count(items, status) == 0) <==> (forall i :: 0 <= i < |items| ==> items[i].status != status)
  {
    if items != [] {
      CountZero(items[..|items| - 1], status);
      assert items == items[..|items| - 1] + [items[|items| - 1]];
    }
  }

  /** Each item is counted under exactly one status. */
  lemma {:induction false} CountsAddUp(items: seq<ResourceResult>)
    ensures Count(items, Updated) + Count(items, Restarted) + Count(items, Skipped) + Count(items, Failed) +
            Count(items, Checked) + Count(items, UpToDate) + Count(items, UpdateAvailable) == |items|
  {
    if items != [] { CountsAddUp(items[..|items| - 1]); }
  }

  class RunResult {
    var success: bool
    var checked: nat
    var updated: nat
    var restarted: nat
    var skipped: nat
    var failed: nat
    var items: seq<ResourceResult>

    /** Every counter is the number of items with its status; `checked` counts the plans. */
    ghost predicate Tallies(plans: nat)
      reads this
    {
      && checked == plans && plans <= |items|
      && updated == Count(items, Updated) && restarted == Count(items, Restarted)
      && skipped == Count(items, Skipped) && failed == Count(items, Failed)
    }

    constructor ()
      ensures Tallies(0) && checked == 0 && items == []
    {
      success, checked, updated, restarted, skipped, failed, items := false, 0, 0, 0, 0, 0, [];
    }

    /** Accounts for the outcome of one plan. */
    method AddPlanItem(item: ResourceResult)
      requires Tallies(checked) && checked == |items| && item.status != Restarted
      modifies this
      ensures checked == old(checked) + 1 && Tallies(checked) && items == old(items) + [item]
    {
      CountsSnoc(items, item);
      checked := checked + 1;
      match item.status {
        case Skipped => skipped := skipped + 1;
        case Failed => failed := failed + 1;
        case Updated => updated := updated + 1;
        case _ =>
      }
      items := items + [item];
    }

    /** Accounts for the result of one container, in whatever way its status calls for. */
    method ApplyResultCount(item: ResourceResult)
      requires Tallies(checked)
      modifies this`checked, this`updated, this`restarted, this`skipped, this`failed
      ensures updated == Count(items + [item], Updated) && restarted == Count(items + [item], Restarted)
      ensures skipped == Count(items + [item], Skipped) && failed == Count(items + [item], Failed)
      ensures checked == old(checked) + if item.status in {Checked, UpToDate, UpdateAvailable} then 1 else 0
    {
      CountsSnoc(items, item);
      match item.status {
        case Updated => updated := updated + 1;
        case Restarted => restarted := restarted + 1;
        case Skipped => skipped := skipped + 1;
        case Failed => failed := failed + 1;
        case Checked => checked := checked + 1;
        case UpToDate => checked := checked + 1;
        case UpdateAvailable => checked := checked + 1;
      }
    }

    /** Accounts for the results of a restart run, none of which is left merely checked. */
    method AddContainerItems(results: seq<ResourceResult>)
      requires Tallies(checked)
      requires forall i :: 0 <= i < |results| ==> results[i].status in {Updated, Restarted, Skipped, Failed}
      modifies this
      ensures checked == old(checked) && Tallies(checked) && items == old(items) + results
    {
      for i := 0 to |results|
        invariant Tallies(old(checked)) && items == old(items) + results[..i]
      {
        ApplyResultCount(results[i]);
        assert results[..i + 1] == results[..i] + [results[i]];
        items := items + [results[i]];
      }
      assert results[..|results|] == results;
    }

    /** Closes the account: a run succeeded if it hit no error and no item failed. */
    method Finish(ok: bool)
      requires Tallies(checked)
      modifies this`success
      ensures success <==> ok && NoneFailed(items)
      ensures Tallies(checked)
      ensures items == [] && ok ==> success
    {
      CountZero(items, Failed);
      success := ok && failed == 0;
    }
  }

  lemma CountsSnoc(items: seq<ResourceResult>, item: ResourceResult)
    ensures forall status ::
              Count(items + [item], status) == Count(items, status) + if item.status == status then 1 else 0
  {
    forall status
      ensures Count(items + [item], status) == Count(items, status) + if item.status == status then 1 else 0
    {
      CountSnoc(items, item, status);
    }
  }
}
