/** The wallet settings page: the stored wallet list and the selected wallet,
    with deleting one wallet, clearing them all and generating a new one. */
module WalletSettings {
  import opened Wrappers

  /** A wallet object. `handle` stands for the object's identity, which is what
      `===` compares. */
  datatype Wallet = Wallet(handle: nat, address: string)

  /** `wallets.filter((_, i) => i !== index)`. */
  function DropIndex(wallets: seq<Wallet>, index: int): seq<Wallet>
  {
    if wallets == [] then []
    else if index == 0 then DropIndex(wallets[1..], -1)
    else [wallets[0]] + DropIndex(wallets[1..], index - 1)
  }

  /** Filtering by position removes exactly position `index` when it exists (the
      others keep their order) and nothing otherwise. */
  lemma {:induction false} DropIndexSpec(wallets: seq<Wallet>, index: int)
    ensures 0 <= index < |wallets| ==> DropIndex(wallets, index) == wallets[..index] + wallets[index + 1..]
    ensures !(0 <= index < |wallets|) ==> DropIndex(wallets, index) == wallets
  {
    if wallets != [] {
      if index == 0 {
        DropIndexSpec(wallets[1..], -1);
      } else {
        DropIndexSpec(wallets[1..], index - 1);
        if 0 < index < |wallets| {
          assert wallets[1..][..index - 1] == wallets[1..index];
          assert wallets[1..][index..] == wallets[index + 1..];
          assert [wallets[0]] + wallets[1..index] == wallets[..index];
        } else {
          assert [wallets[0]] + wallets[1..] == wallets;
        }
      }
    }
  }

  /** The selection after `deleteWallet(index)`: the first remaining wallet (or
      none) when the deleted wallet was the selected one, else unchanged. An
      index outside the list deletes nothing, and `wallets[index]` is then
      `undefined`, which no selection equals. */
  function SelectionAfterDelete(wallets: seq<Wallet>, selected: Option<Wallet>, index: int): Option<Wallet>
  {
    var remaining := DropIndex(wallets, index);
    if 0 <= index < |wallets| && selected == Some(wallets[index]) then
      (if |remaining| > 0 then Some(remaining[0]) else None)
    else selected
  }

  /** The selected wallet, if any, is one of the listed wallets. */
  predicate SelectionListed(wallets: seq<Wallet>, selected: Option<Wallet>)
  {
    selected.None? || selected.value in wallets
  }

  /** Deleting keeps a listed selection listed: the deleted wallet is replaced by
      the new first wallet, and any other selected wallet survives the filter. */
  lemma DeleteKeepsSelectionListed(wallets: seq<Wallet>, selected: Option<Wallet>, index: int)
    requires SelectionListed(wallets, selected)
    ensures SelectionListed(DropIndex(wallets, index), SelectionAfterDelete(wallets, selected, index))
  {
    DropIndexSpec(wallets, index);
    var remaining := DropIndex(wallets, index);
    if selected.Some? && !(0 <= index < |wallets| && selected == Some(wallets[index])) && 0 <= index < |wallets| {
      var j :| 0 <= j < |wallets| && wallets[j] == selected.value;
      assert j != index;
      if j < index {
        assert remaining[j] == wallets[j];
      } else {
        assert remaining[j - 1] == wallets[j];
      }
    }
  }

  /** The selection is replaced exactly when the deleted wallet was selected. */
  lemma DeleteReselectsIff(wallets: seq<Wallet>, selected: Option<Wallet>, index: int)
    ensures var after := SelectionAfterDelete(wallets, selected, index);
      (0 <= index < |wallets| && selected == Some(wallets[index]) ==>
         after == (if |wallets| > 1 then Some((wallets[..index] + wallets[index + 1..])[0]) else None))
      && (!(0 <= index < |wallets| && selected == Some(wallets[index])) ==> after == selected)
  {
    DropIndexSpec(wallets, index);
  }

  /** No wallet is listed twice (each `generateAccount` call returns a new object). */
  predicate Distinct(wallets: seq<Wallet>)
  {
    forall i, j :: 0 <= i < j < |wallets| ==> wallets[i] != wallets[j]
  }

  /** Without repetitions, the element cut out of a list is in neither part left
      around it, and both parts' elements are in the list. */
  lemma RemovedNotInRest(wallets: seq<Wallet>, index: int)
    requires Distinct(wallets) && 0 <= index < |wallets|
    ensures wallets[index] !in wallets[..index] + wallets[index + 1..]
    ensures forall v :: v in wallets[..index] + wallets[index + 1..] ==> v in wallets
  {
    var rest := wallets[..index] + wallets[index + 1..];
    forall v | v in rest
      ensures v != wallets[index] && v in wallets
    {
      var j :| 0 <= j < |rest| && rest[j] == v;
      if j < index {
        assert rest[j] == wallets[j];
      } else {
        assert rest[j] == wallets[j + 1];
      }
    }
  }

  /** The lost update of `handleGenerateWallet`: the list it stores is the one it
      read before awaiting, plus the new wallet. A wallet deleted from that list
      meanwhile is gone from the current list but listed again once generating
      completes, which also drops nothing else the deletion kept. */
  lemma DeletedWalletReturns(captured: seq<Wallet>, index: int, w: Wallet)
    requires Distinct(captured) && 0 <= index < |captured|
    ensures captured[index] !in DropIndex(captured, index)
    ensures captured[index] in captured + [w]
    ensures forall v :: v in DropIndex(captured, index) ==> v in captured + [w]
  {
    DropIndexSpec(captured, index);
    RemovedNotInRest(captured, index);
    assert (captured + [w])[index] == captured[index];
  }

  class SettingsPage {
    var wallets: seq<Wallet>
    var selected: Option<Wallet>
    var isGenerating: bool
    /** Every value `isGenerating` has been set to, in order. */
    ghost var generatingTrace: seq<bool>

    constructor (wallets: seq<Wallet>, selected: Option<Wallet>)
      ensures this.wallets == wallets && this.selected == selected
      ensures !isGenerating && generatingTrace == []
    {
      this.wallets := wallets;
      this.selected := selected;
      isGenerating := false;
      generatingTrace := [];
    }

    /** `deleteWallet(index)`. */
    method DeleteWallet(index: int)
      modifies this
      ensures wallets == DropIndex(old(wallets), index)
      ensures selected == SelectionAfterDelete(old(wallets), old(selected), index)
      ensures isGenerating == old(isGenerating) && generatingTrace == old(generatingTrace)
    {
      var newWallets := DropIndex(wallets, index);
      var deleted := wallets;
      wallets := newWallets;
      if 0 <= index < |deleted| && selected == Some(deleted[index]) {
        selected := if |newWallets| > 0 then Some(newWallets[0]) else None;
      }
    }

    /** `clearAllWallets()`. */
    method ClearAllWallets()
      modifies this
      ensures wallets == [] && selected == None
      ensures isGenerating == old(isGenerating) && generatingTrace == old(generatingTrace)
    {
      wallets := [];
      selected := None;
    }

    /** The part of `handleGenerateWallet()` before `await generateAccount(pxe)`:
        the closure's `wallets` is the list as it is now. */
    method BeginGenerate() returns (captured: seq<Wallet>)
      modifies this
      ensures captured == wallets
      ensures wallets == old(wallets) && selected == old(selected)
      ensures isGenerating && generatingTrace == old(generatingTrace) + [true]
    {
      isGenerating := true;
      generatingTrace := generatingTrace + [true];
      captured := wallets;
    }

    /** The part after the `await`, given the wallet `generateAccount` returned
        (or `None` when it threw): `setWallets([...wallets, newWallet])` with the
        list read before the `await`, whatever happened to the list since. */
    method CompleteGenerate(captured: seq<Wallet>, generated: Option<Wallet>)
      modifies this
      ensures generated.Some? ==> wallets == captured + [generated.value] && selected == generated
      ensures generated.None? ==> wallets == old(wallets) && selected == old(selected)
      ensures !isGenerating && generatingTrace == old(generatingTrace) + [false]
    {
      if generated.Some? {
        wallets := captured + [generated.value];
        selected := generated;
      }
      // finally
      isGenerating := false;
      generatingTrace := generatingTrace + [false];
    }

    /** `handleGenerateWallet()` with nothing else happening during the `await`. */
    method GenerateWallet(generated: Option<Wallet>)
      modifies this
      ensures generated.Some? ==> wallets == old(wallets) + [generated.value] && selected == generated
      ensures generated.None? ==> wallets == old(wallets) && selected == old(selected)
      ensures !isGenerating && generatingTrace == old(generatingTrace) + [true, false]
    {
      var captured := BeginGenerate();
      CompleteGenerate(captured, generated);
    }
  }

  /** Deleting a wallet while one is being generated (the delete buttons stay
      enabled): the deletion is undone when generating completes. */
  method DeleteDuringGenerate(page: SettingsPage, index: int, w: Wallet)
    modifies page
    ensures page.wallets == old(page.wallets) + [w] && page.selected == Some(w)
  {
    var captured := page.BeginGenerate();
    page.DeleteWallet(index);
    page.CompleteGenerate(captured, Some(w));
  }

  /** Clearing all wallets while one is being generated: every cleared wallet is
      listed again when generating completes. */
  method ClearDuringGenerate(page: SettingsPage, w: Wallet)
    modifies page
    ensures page.wallets == old(page.wallets) + [w] && page.selected == Some(w)
  {
    var captured := page.BeginGenerate();
    page.ClearAllWallets();
    page.CompleteGenerate(captured, Some(w));
  }

  /** Appending and selecting a generated wallet leaves the selection listed. */
  lemma GenerateKeepsSelectionListed(wallets: seq<Wallet>, w: Wallet)
    ensures SelectionListed(wallets + [w], Some(w))
  {
    assert (wallets + [w])[|wallets|] == w;
  }
}
