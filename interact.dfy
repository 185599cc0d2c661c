/** The workbench's interaction panel, driven by a generated UI configuration:
    personas with screens, screens with components. The panel renders the
    selected persona's screens, keeps the chosen wallet and persona, picks a
    default wallet, creates wallets and guards contract calls. */
module Interact {
  import opened Wrappers
  import opened Text
  import opened WalletSettings

  // ---------------------------------------------------------------------------
  // The configuration

  datatype ButtonAction = DeployContract | InvokeFunction(fn: string)

  datatype ChoiceOption = ChoiceOption(caption: string, value: int)

  datatype Component =
    | Button(id: string, caption: string, action: ButtonAction)
    | NumericDisplay(id: string, caption: string)
    | Toggle(id: string, caption: string, default: bool)
    | ChoiceSelector(id: string, caption: string, options: seq<ChoiceOption>)
    | TxDetails(id: string)
    | TextBlock(id: string, content: string)
    | BarChart(id: string)

  datatype LinkItem = LinkItem(caption: string, urlTemplate: string)

  /** A screen of the configuration; `Other` is any `type` the renderer does not know. */
  datatype Screen =
    | ConnectWallet(id: string, prompt: string)
    | Panel(id: string, title: string, components: seq<Component>)
    | Form(id: string, title: string, components: seq<Component>)
    | Generic(id: string, title: string, components: seq<Component>)
    | Dashboard(id: string, title: string, components: seq<Component>)
    | ToggleScreen(id: string, caption: string, default: bool)
    | LinkList(id: string, title: string, items: seq<LinkItem>)
    | Other(id: string, kind: string)

  datatype Persona = Persona(id: string, displayName: string, screens: seq<Screen>)

  // ---------------------------------------------------------------------------
  // Rendering

  /** What a button does when clicked: a panel button only logs the function it
      names, a form button invokes it. */
  datatype ClickAction = LogOnly(logged: Option<string>) | Invoke(fn: string)

  datatype Element =
    | ButtonEl(caption: string, disabled: bool, onClick: ClickAction)
    | StatEl(caption: string, value: string)
    | ToggleEl(caption: string, defaultChecked: bool)
    | SelectEl(caption: string, options: seq<ChoiceOption>)
    | TextEl(content: string)
    | TxDetailsEl(placeholder: string)
    | BarChartEl
    | LinkEl(caption: string, href: string)

  /** A rendered screen: a card with a title and its elements. */
  datatype Card = Card(title: string, elements: seq<Element>)

  /** The four screen kinds that render components, each with its own `switch`. */
  datatype Kind = PanelKind | FormKind | DashboardKind | GenericKind

  const TxPlaceholder: string := "Transaction details will appear here"
  const AddressPlaceholder: string := "0x123..."
  const AddressSlot: string := "{{contractAddress}}"

  /** The buttons no screen shows: deploying, and invoking the constructor. */
  predicate Hidden(c: Component)
  {
    c.Button? && (c.action.DeployContract? || c.action.fn == "constructor")
  }

  /** Which component types each screen kind renders, as a table. */
  predicate Allowed(kind: Kind, c: Component)
  {
    match kind
    case PanelKind => c.Button? || c.NumericDisplay? || c.Toggle?
    case FormKind => c.ChoiceSelector? || c.Button?
    case DashboardKind => c.NumericDisplay? || c.BarChart?
    case GenericKind => c.TxDetails? || c.TextBlock?
  }

  /** One component inside a screen of the given kind; `None` is the `null` a
      `switch` branch returns. */
  function RenderComponent(kind: Kind, c: Component, walletSelected: bool): Option<Element>
  {
    match kind
    case PanelKind =>
      (match c
       case Button(_, caption, action) =>
         if Hidden(c) then None
         else Some(ButtonEl(caption, !walletSelected, LogOnly(Some(action.fn))))
       case NumericDisplay(_, caption) => Some(StatEl(caption, "0"))
       case Toggle(_, caption, default) => Some(ToggleEl(caption, default))
       case _ => None)
    case FormKind =>
      (match c
       case ChoiceSelector(_, caption, options) => Some(SelectEl(caption, options))
       case Button(_, caption, action) =>
         if Hidden(c) then None
         else Some(ButtonEl(caption + " 237", !walletSelected, Invoke(action.fn)))
       case _ => None)
    case DashboardKind =>
      (match c
       case NumericDisplay(_, caption) => Some(StatEl(caption, "0"))
       case BarChart(_) => Some(BarChartEl)
       case _ => None)
    case GenericKind =>
      (match c
       case TextBlock(_, content) => Some(TextEl(content))
       case TxDetails(_) => Some(TxDetailsEl(TxPlaceholder))
       case _ => None)
  }

  /** `components.map(...)`, with the `null`s rendering nothing. */
  function RenderAll(kind: Kind, cs: seq<Component>, walletSelected: bool): seq<Element>
  {
    if cs == [] then []
    else
      (match RenderComponent(kind, cs[0], walletSelected) case Some(e) => [e] case None => [])
      + RenderAll(kind, cs[1..], walletSelected)
  }

  /** `item.urlTemplate.replace('{{contractAddress}}', '0x123...')`. */
  function LinkHref(template: string): string
  {
    ReplaceFirst(template, AddressSlot, AddressPlaceholder)
  }

  function RenderLinks(items: seq<LinkItem>): (r: seq<Element>)
    ensures |r| == |items|
    ensures forall i :: 0 <= i < |items| ==> r[i] == LinkEl(items[i].caption, LinkHref(items[i].urlTemplate))
  {
    if items == [] then [] else [LinkEl(items[0].caption, LinkHref(items[0].urlTemplate))] + RenderLinks(items[1..])
  }

  /** One screen of the selected persona. */
  function RenderScreen(s: Screen, walletSelected: bool): Option<Card>
  {
    match s
    case Panel(_, title, cs) => Some(Card(title, RenderAll(PanelKind, cs, walletSelected)))
    case Form(_, title, cs) => Some(Card(title, RenderAll(FormKind, cs, walletSelected)))
    case Dashboard(_, title, cs) => Some(Card(title, RenderAll(DashboardKind, cs, walletSelected)))
    case Generic(_, title, cs) => Some(Card(title, RenderAll(GenericKind, cs, walletSelected)))
    case LinkList(_, title, items) => Some(Card(title, RenderLinks(items)))
    case _ => None
  }

  /** A component renders exactly when its screen kind admits its type and it is
      not a hidden button; a rendered button is disabled exactly when no wallet
      is selected, and a form button's caption carries the suffix ` 237`. */
  lemma RenderComponentIff(kind: Kind, c: Component, walletSelected: bool)
    ensures RenderComponent(kind, c, walletSelected).Some? <==> Allowed(kind, c) && !Hidden(c)
    ensures RenderComponent(kind, c, walletSelected).Some? && c.Button? ==>
      var e := RenderComponent(kind, c, walletSelected).value;
      e.ButtonEl? && (e.disabled <==> !walletSelected)
      && e.caption == (if kind == FormKind then c.caption + " 237" else c.caption)
      && e.onClick == (if kind == FormKind then Invoke(c.action.fn) else LogOnly(Some(c.action.fn)))
  {
  }

  /** Rendering a list is rendering its parts one after the other. */
  lemma {:induction false} RenderAllAppend(kind: Kind, a: seq<Component>, b: seq<Component>, walletSelected: bool)
    ensures RenderAll(kind, a + b, walletSelected) == RenderAll(kind, a, walletSelected) + RenderAll(kind, b, walletSelected)
  {
    if a != [] {
      assert (a + b)[0] == a[0] && (a + b)[1..] == a[1..] + b;
      RenderAllAppend(kind, a[1..], b, walletSelected);
    } else {
      assert a + b == b;
    }
  }

  /** Every element comes from an admitted, non-hidden component of the list, and
      every such component shows up; there are never more elements than components. */
  lemma {:induction false} RenderAllExact(kind: Kind, cs: seq<Component>, walletSelected: bool)
    ensures forall e :: e in RenderAll(kind, cs, walletSelected) ==>
      exists c :: c in cs && Allowed(kind, c) && !Hidden(c) && RenderComponent(kind, c, walletSelected) == Some(e)
    ensures forall c :: c in cs && Allowed(kind, c) && !Hidden(c) ==>
      RenderComponent(kind, c, walletSelected).value in RenderAll(kind, cs, walletSelected)
    ensures |RenderAll(kind, cs, walletSelected)| <= |cs|
  {
    if cs != [] {
      RenderAllExact(kind, cs[1..], walletSelected);
      RenderComponentIff(kind, cs[0], walletSelected);
      var rest := RenderAll(kind, cs[1..], walletSelected);
      forall e | e in RenderAll(kind, cs, walletSelected)
        ensures exists c :: c in cs && Allowed(kind, c) && !Hidden(c) && RenderComponent(kind, c, walletSelected) == Some(e)
      {
        if e !in rest {
          assert RenderComponent(kind, cs[0], walletSelected) == Some(e);
        } else {
          var c :| c in cs[1..] && Allowed(kind, c) && !Hidden(c) && RenderComponent(kind, c, walletSelected) == Some(e);
          assert c in cs;
        }
      }
      forall c | c in cs && Allowed(kind, c) && !Hidden(c)
        ensures RenderComponent(kind, c, walletSelected).value in RenderAll(kind, cs, walletSelected)
      {
        RenderComponentIff(kind, c, walletSelected);
        if c != cs[0] {
          assert c in cs[1..];
        }
      }
    }
  }

  /** A hidden button renders nothing on any screen kind, so a list of hidden
      buttons renders no element at all. */
  lemma {:induction false} HiddenButtonsNeverRendered(kind: Kind, cs: seq<Component>, walletSelected: bool)
    requires forall c :: c in cs ==> Hidden(c)
    ensures RenderAll(kind, cs, walletSelected) == []
  {
    if cs != [] {
      assert cs[0] in cs;
      assert forall c :: c in cs[1..] ==> c in cs;
      HiddenButtonsNeverRendered(kind, cs[1..], walletSelected);
    }
  }

  /** The screen types the renderer draws a card for. */
  predicate Drawn(s: Screen)
  {
    s.Panel? || s.Form? || s.Dashboard? || s.Generic? || s.LinkList?
  }

  /** The panel, form, dashboard, generic and link-list screens render, as a card
      under the screen's own title; the connect-wallet and toggle screens and any
      unknown type render nothing. */
  lemma RenderScreenIff(s: Screen, walletSelected: bool)
    ensures RenderScreen(s, walletSelected).Some? <==> Drawn(s)
    ensures RenderScreen(s, walletSelected).Some? ==> RenderScreen(s, walletSelected).value.title == s.title
  {
  }

  /** Only the first placeholder of a link template is filled in; a template
      without one is used as it is. */
  lemma LinkHrefFillsFirstSlot(template: string)
    ensures !Contains(template, AddressSlot) ==> LinkHref(template) == template
    ensures Contains(template, AddressSlot) ==>
      exists i :: 0 <= i <= |template| - |AddressSlot| && StartsWith(template[i..], AddressSlot)
        && (forall j :: 0 <= j < i ==> !StartsWith(template[j..], AddressSlot))
        && LinkHref(template) == template[..i] + AddressPlaceholder + template[i + |AddressSlot|..]
  {
    ReplaceFirstSpec(template, AddressSlot, AddressPlaceholder);
  }

  // ---------------------------------------------------------------------------
  // Lookups and the click handler

  /** `personas.find(p => p.id === id)`. */
  function FindPersona(personas: seq<Persona>, id: string): (r: Option<Persona>)
    ensures r.None? <==> forall p :: p in personas ==> p.id != id
    ensures r.Some? ==> exists i :: 0 <= i < |personas| && personas[i] == r.value && r.value.id == id
                          && forall j :: 0 <= j < i ==> personas[j].id != id
  {
    if personas == [] then None
    else if personas[0].id == id then Some(personas[0])
    else
      var r := FindPersona(personas[1..], id);
      if r.Some? then
        var i :| 0 <= i < |personas[1..]| && personas[1..][i] == r.value && r.value.id == id
                 && forall j :: 0 <= j < i ==> personas[1..][j].id != id;
        assert personas[i + 1] == r.value && forall j :: 0 <= j < i + 1 ==> personas[j].id != id;
        r
      else
        assert forall p :: p in personas ==> p == personas[0] || p in personas[1..];
        r
  }

  /** `wallets.find(w => w.getAddress().toString() === address)`. */
  function FindWallet(wallets: seq<Wallet>, address: string): (r: Option<Wallet>)
    ensures r.None? <==> forall w :: w in wallets ==> w.address != address
    ensures r.Some? ==> exists i :: 0 <= i < |wallets| && wallets[i] == r.value && r.value.address == address
                          && forall j :: 0 <= j < i ==> wallets[j].address != address
  {
    if wallets == [] then None
    else if wallets[0].address == address then Some(wallets[0])
    else
      var r := FindWallet(wallets[1..], address);
      if r.Some? then
        var i :| 0 <= i < |wallets[1..]| && wallets[1..][i] == r.value && r.value.address == address
                 && forall j :: 0 <= j < i ==> wallets[1..][j].address != address;
        assert wallets[i + 1] == r.value && forall j :: 0 <= j < i + 1 ==> wallets[j].address != address;
        r
      else
        assert forall w :: w in wallets ==> w == wallets[0] || w in wallets[1..];
        r
  }

  /** The wallet selector's value: the selected wallet's address, or `''`. */
  function SelectorValue(wallet: Option<Wallet>): string
  {
    if wallet.Some? && wallet.value.address != "" then wallet.value.address else ""
  }

  /** What clicking a button does, given the deployed contract's address and the wallet. */
  datatype ClickEffect =
    | Logged(loggedFn: Option<string>)
    | ToastError(message: string)
    | Called(contract: string, wallet: Wallet, called: string, args: seq<int>)

  const NoContractMessage: string := "No contract deployed"
  const NoWalletMessage: string := "No wallet selected"

  /** The `onClick` of a rendered button. */
  function Click(action: ClickAction, deployed: Option<string>, wallet: Option<Wallet>): (r: ClickEffect)
    ensures action.LogOnly? ==> r == Logged(action.logged)
    ensures action.Invoke? && deployed.None? ==> r == ToastError(NoContractMessage)
    ensures action.Invoke? && deployed.Some? && wallet.None? ==> r == ToastError(NoWalletMessage)
    ensures r.Called? <==> action.Invoke? && deployed.Some? && wallet.Some?
    ensures r.Called? ==> r == Called(deployed.value, wallet.value, action.fn, [0])
  {
    match action
    case LogOnly(f) => Logged(f)
    case Invoke(f) =>
      if deployed.None? then ToastError(NoContractMessage)
      else if wallet.None? then ToastError(NoWalletMessage)
      else Called(deployed.value, wallet.value, f, [0])
  }

  /** A form button reaches the contract only with a contract deployed and a
      wallet selected, calls the function it names with the single argument 0,
      and checks the contract before the wallet. */
  lemma FormClickGuards(c: Component, deployed: Option<string>, wallet: Option<Wallet>)
    requires RenderComponent(FormKind, c, wallet.Some?).Some? && c.Button?
    ensures var e := RenderComponent(FormKind, c, wallet.Some?).value;
      var effect := Click(e.onClick, deployed, wallet);
      (effect.Called? <==> deployed.Some? && wallet.Some?)
      && (effect.Called? ==> effect.called == c.action.fn && effect.args == [0])
      && (deployed.None? ==> effect == ToastError(NoContractMessage))
  {
    RenderComponentIff(FormKind, c, wallet.Some?);
  }

  /** A panel button never reaches the contract. */
  lemma PanelClickOnlyLogs(c: Component, deployed: Option<string>, wallet: Option<Wallet>)
    requires RenderComponent(PanelKind, c, wallet.Some?).Some? && c.Button?
    ensures Click(RenderComponent(PanelKind, c, wallet.Some?).value.onClick, deployed, wallet).Logged?
  {
    RenderComponentIff(PanelKind, c, wallet.Some?);
  }

  // ---------------------------------------------------------------------------
  // The component's state

  class InteractPanel {
    const personas: seq<Persona>
    /** `None` is the `undefined` that `config.personas[0]` is for an empty list. */
    var selectedPersona: Option<Persona>
    var wallet: Option<Wallet>
    /** The wallet list from the shared store. */
    var wallets: seq<Wallet>
    /** Whether the PXE client has been created. */
    var pxeReady: bool
    var isCreatingWallet: bool
    /** Every value `isCreatingWallet` has been set to, in order. */
    ghost var creatingTrace: seq<bool>

    /** `useState(config.personas[0])` and `useState(selectedWallet)`. */
    constructor (personas: seq<Persona>, selectedWallet: Option<Wallet>, wallets: seq<Wallet>)
      ensures this.personas == personas
      ensures selectedPersona == (if |personas| > 0 then Some(personas[0]) else None)
      ensures wallet == selectedWallet && this.wallets == wallets
      ensures !pxeReady && !isCreatingWallet && creatingTrace == []
    {
      this.personas := personas;
      selectedPersona := if |personas| > 0 then Some(personas[0]) else None;
      wallet := selectedWallet;
      this.wallets := wallets;
      pxeReady := false;
      isCreatingWallet := false;
      creatingTrace := [];
    }

    /** The selected persona's screens, with `null`s dropped; `None` when there
        is no persona, where reading `selectedPersona.id` throws and nothing
        renders. */
    function Screens(): (r: Option<seq<Card>>)
      reads this
      ensures r.None? <==> selectedPersona.None?
      ensures r.Some? ==> |r.value| <= |selectedPersona.value.screens|
    {
      if selectedPersona.None? then None
      else Some(RenderScreens(selectedPersona.value.screens, wallet.Some?))
    }

    /** The persona selector's `onChange`. */
    method SelectPersona(id: string)
      modifies this
      ensures selectedPersona == (var p := FindPersona(personas, id); if p.Some? then p else old(selectedPersona))
      ensures wallet == old(wallet) && wallets == old(wallets) && pxeReady == old(pxeReady)
      ensures isCreatingWallet == old(isCreatingWallet) && creatingTrace == old(creatingTrace)
    {
      var persona := FindPersona(personas, id);
      if persona.Some? {
        selectedPersona := persona;
      }
    }

    /** The wallet selector's `onChange`. */
    method SelectWallet(address: string)
      modifies this
      ensures wallet == (var w := FindWallet(wallets, address); if w.Some? then w else old(wallet))
      ensures selectedPersona == old(selectedPersona) && wallets == old(wallets) && pxeReady == old(pxeReady)
      ensures isCreatingWallet == old(isCreatingWallet) && creatingTrace == old(creatingTrace)
    {
      var found := FindWallet(wallets, address);
      if found.Some? {
        wallet := found;
      }
    }

    /** The effect on `[wallet, wallets]`: with no wallet and a non-empty list,
        the first listed wallet is taken. */
    method DefaultWalletEffect()
      modifies this
      ensures wallet == (if old(wallet).None? && |wallets| > 0 then Some(wallets[0]) else old(wallet))
      ensures selectedPersona == old(selectedPersona) && wallets == old(wallets) && pxeReady == old(pxeReady)
      ensures isCreatingWallet == old(isCreatingWallet) && creatingTrace == old(creatingTrace)
    {
      if wallet.None? && |wallets| > 0 {
        wallet := Some(wallets[0]);
      }
    }

    /** The effect that creates the PXE client. */
    method PxeCreated()
      modifies this
      ensures pxeReady
      ensures selectedPersona == old(selectedPersona) && wallet == old(wallet) && wallets == old(wallets)
      ensures isCreatingWallet == old(isCreatingWallet) && creatingTrace == old(creatingTrace)
    {
      pxeReady := true;
    }

    /** `handleCreateWallet()`, given the account `generateAccount` returns, or
        `None` when it throws. The new wallet becomes the selection but is not
        added to the shared list. */
    method CreateWallet(generated: Option<Wallet>)
      modifies this
      ensures !old(pxeReady) ==>
        wallet == old(wallet) && isCreatingWallet == old(isCreatingWallet) && creatingTrace == old(creatingTrace)
      ensures old(pxeReady) ==>
        wallet == (if generated.Some? then generated else old(wallet))
        && !isCreatingWallet && creatingTrace == old(creatingTrace) + [true, false]
      ensures selectedPersona == old(selectedPersona) && wallets == old(wallets) && pxeReady == old(pxeReady)
    {
      if !pxeReady {
        return;
      }
      isCreatingWallet := true;
      creatingTrace := creatingTrace + [true];
      if generated.Some? {
        wallet := generated;
      }
      // finally
      isCreatingWallet := false;
      creatingTrace := creatingTrace + [false];
    }
  }

  /** `screens.map(...)`, with the `null`s dropped. */
  function RenderScreens(screens: seq<Screen>, walletSelected: bool): (r: seq<Card>)
    ensures |r| <= |screens|
  {
    if screens == [] then []
    else
      (match RenderScreen(screens[0], walletSelected) case Some(c) => [c] case None => [])
      + RenderScreens(screens[1..], walletSelected)
  }

  /** Rendering a list of screens is rendering its parts one after the other. */
  lemma {:induction false} RenderScreensAppend(a: seq<Screen>, b: seq<Screen>, walletSelected: bool)
    ensures RenderScreens(a + b, walletSelected) == RenderScreens(a, walletSelected) + RenderScreens(b, walletSelected)
  {
    if a != [] {
      assert (a + b)[0] == a[0] && (a + b)[1..] == a[1..] + b;
      RenderScreensAppend(a[1..], b, walletSelected);
    } else {
      assert a + b == b;
    }
  }

  /** Every card comes from a drawn screen of the list, and every drawn screen's
      card is shown. */
  lemma {:induction false} RenderScreensExact(screens: seq<Screen>, walletSelected: bool)
    ensures forall c :: c in RenderScreens(screens, walletSelected) ==>
      exists s :: s in screens && Drawn(s) && RenderScreen(s, walletSelected) == Some(c)
    ensures forall s :: s in screens && Drawn(s) ==>
      RenderScreen(s, walletSelected).value in RenderScreens(screens, walletSelected)
  {
    if screens != [] {
      RenderScreensExact(screens[1..], walletSelected);
      RenderScreenIff(screens[0], walletSelected);
      var rest := RenderScreens(screens[1..], walletSelected);
      forall c | c in RenderScreens(screens, walletSelected)
        ensures exists s :: s in screens && Drawn(s) && RenderScreen(s, walletSelected) == Some(c)
      {
        if c !in rest {
          assert RenderScreen(screens[0], walletSelected) == Some(c);
        } else {
          var s :| s in screens[1..] && Drawn(s) && RenderScreen(s, walletSelected) == Some(c);
          assert s in screens;
        }
      }
      forall s | s in screens && Drawn(s)
        ensures RenderScreen(s, walletSelected).value in RenderScreens(screens, walletSelected)
      {
        RenderScreenIff(s, walletSelected);
        if s != screens[0] {
          assert s in screens[1..];
        }
      }
    }
  }

  /** Choosing a listed persona's id selects a persona with that id. */
  lemma SelectPersonaByOwnId(personas: seq<Persona>, p: Persona)
    requires p in personas
    ensures FindPersona(personas, p.id).Some? && FindPersona(personas, p.id).value.id == p.id
  {
  }

  /** Choosing the empty option finds no wallet when every wallet has an address. */
  lemma EmptyOptionKeepsWallet(wallets: seq<Wallet>)
    requires forall w :: w in wallets ==> w.address != ""
    ensures FindWallet(wallets, "") == None
  {
  }

  /** Choosing the selector's own value for a listed wallet selects a wallet with
      that same address. */
  lemma SelectorValueRoundTrip(wallets: seq<Wallet>, w: Wallet)
    requires w in wallets && w.address != ""
    ensures FindWallet(wallets, SelectorValue(Some(w))).Some?
    ensures FindWallet(wallets, SelectorValue(Some(w))).value.address == w.address
  {
  }
}
