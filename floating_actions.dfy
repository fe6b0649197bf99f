/** The floating contact button: one open/closed flag, flipped by the button,
    decides everything the button renders — the list of contact shortcuts,
    the button's icon and accessible label, and the attention badge. */
module FloatingActions {

  datatype Option<T> = None | Some(value: T)

  /** The icons the button and its shortcuts use. */
  datatype Icon = MessageCircle | Phone | Mail | X

  /** One contact shortcut; `labelText` is its visible label (`label` is a
      reserved word in Dafny). */
  datatype Action = Action(icon: Icon, labelText: string, color: string, link: string)

  /** The shortcuts, in display order. */
  const Actions: seq<Action> := [
    Action(MessageCircle, "WhatsApp", "from-green-400 to-green-600", "https://wa.me/971552083155"),
    Action(Phone, "Call", "from-blue-400 to-blue-600", "tel:+971552083155"),
    Action(Mail, "Email", "from-red-400 to-red-600", "mailto:info@4plustechnicalservices.com")
  ]

  /** The browsing context a shortcut opens in, if not the current one. */
  function Target(a: Action): Option<string>
  {
    if a.labelText == "WhatsApp" then Some("_blank") else None
  }

  /** The link relation a shortcut carries, if any. */
  function Rel(a: Action): Option<string>
  {
    if a.labelText == "WhatsApp" then Some("noopener noreferrer") else None
  }

  /** The shortcuts are WhatsApp, Call and Email, in that order, each with its
      own link, and only the WhatsApp one opens in a new tab, without giving
      the opened page access to this one. */
  lemma ShortcutLinks()
    ensures |Actions| == 3
    ensures Actions[0].labelText == "WhatsApp" && Actions[0].link == "https://wa.me/971552083155"
    ensures Actions[1].labelText == "Call" && Actions[1].link == "tel:+971552083155"
    ensures Actions[2].labelText == "Email" && Actions[2].link == "mailto:info@4plustechnicalservices.com"
    ensures forall i, j :: 0 <= i < j < |Actions| ==> Actions[i].link != Actions[j].link
    ensures forall i :: 0 <= i < |Actions| ==>
              (Target(Actions[i]) == Some("_blank") <==> i == 0) &&
              (Target(Actions[i]).None? <==> i != 0)
    ensures forall i :: 0 <= i < |Actions| ==>
              (Rel(Actions[i]) == Some("noopener noreferrer") <==> i == 0) &&
              (Rel(Actions[i]).None? <==> i != 0)
  {
    assert Actions[1].labelText[0] != 'W';
    assert Actions[2].labelText[0] != 'W';
    assert Actions[0].link[0] != Actions[1].link[0];
    assert Actions[0].link[0] != Actions[2].link[0];
    assert Actions[1].link[0] != Actions[2].link[0];
  }

  /** What the floating button shows. */
  datatype View = View(
    shortcuts: seq<Action>,  // the expanded list above the button
    buttonIcon: Icon,
    ariaLabel: string,
    badge: bool)             // the pulsing red dot

  /** The view for a given value of the open flag. */
  function Render(isOpen: bool): (v: View)
    ensures isOpen ==> v.shortcuts == Actions
    ensures v.shortcuts != [] <==> isOpen
    ensures v.badge <==> !isOpen
    ensures v.buttonIcon == X <==> isOpen
    ensures !isOpen ==> v.buttonIcon == Phone
    ensures v.ariaLabel == if isOpen then "Close contact menu" else "Open contact menu"
  {
    if isOpen then View(Actions, X, "Close contact menu", false)
    else View([], Phone, "Open contact menu", true)
  }

  /** The open flag a rendered view shows. */
  function ShownOpen(v: View): bool
  {
    !v.badge
  }

  /** The view determines the flag: the two states never look the same, and
      any single element of the view (the badge, the icon, the label, the
      list) tells them apart. */
  lemma RenderDeterminesFlag(isOpen: bool)
    ensures ShownOpen(Render(isOpen)) == isOpen
    ensures Render(isOpen) != Render(!isOpen)
    ensures Render(isOpen).badge != Render(!isOpen).badge
    ensures Render(isOpen).buttonIcon != Render(!isOpen).buttonIcon
    ensures Render(isOpen).ariaLabel != Render(!isOpen).ariaLabel
    ensures Render(isOpen).shortcuts != Render(!isOpen).shortcuts
  {
    assert "Close contact menu"[0] != "Open contact menu"[0];
  }

  /** The flag after `n` presses starting from `isOpen`. */
  function Pressed(isOpen: bool, n: nat): bool
  {
    if n == 0 then isOpen else !Pressed(isOpen, n - 1)
  }

  /** Presses cancel in pairs: after `n` presses the menu is in its starting
      state exactly when `n` is even. */
  lemma {:induction false} PressParity(isOpen: bool, n: nat)
    ensures Pressed(isOpen, n) == (if n % 2 == 0 then isOpen else !isOpen)
  {
    if n > 0 {
      PressParity(isOpen, n - 1);
    }
  }

  /** The in-place floating button component. */
  class FloatingMenu {
    var isOpen: bool

    /** The menu starts closed. */
    constructor ()
      ensures !isOpen
    {
      isOpen := false;
    }

    /** The floating button's click handler. */
    method Toggle()
      modifies this
      ensures isOpen == !old(isOpen)
    {
      isOpen := !isOpen;
    }

    function Shown(): View
      reads this
    {
      Render(isOpen)
    }
  }

  /** Opening the menu and pressing again returns to the closed view. */
  method DoubleToggleScenario() returns (whenOpen: View, whenClosed: View)
    ensures whenOpen.shortcuts == Actions && !whenOpen.badge
    ensures whenClosed == Render(false) && whenClosed.shortcuts == [] && whenClosed.badge
  {
    var m := new FloatingMenu();
    m.Toggle();
    whenOpen := m.Shown();
    m.Toggle();
    whenClosed := m.Shown();
  }
}
