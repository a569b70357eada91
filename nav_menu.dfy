/** The navigation-menu component as an object: the fields its own code
    assigns, the set-up done by `init`, and the icon resolver run on every
    attribute update. */
module NavMenuComponent {
  import opened IconStyle

  /** The action name bound to the search shortcut. */
  const OpenSearchModal: string := "openSearchModal"

  class NavMenu {
    /** The `icon` attribute handed to the component by its parent. */
    var icon: IconRef
    /** The last icon the resolver saw (`_icon`). */
    var lastIcon: IconRef
    var iconClass: string
    var iconStyle: string
    /** Keyboard shortcuts: key combination to the name of the action it runs. */
    var shortcuts: map<string, string>

    /** The three fields the icon resolver keeps, as one value. */
    function IconFields(): IconState
      reads this
    {
      IconState(lastIcon, iconClass, iconStyle)
    }

    /** `init`: no icon seen yet, empty class and style, and one shortcut,
        the platform's modifier key (`ctrlOrCmd`) with `k`, bound to the
        search action. */
    constructor (ctrlOrCmd: string, icon: IconRef)
      ensures this.icon == icon
      ensures IconFields() == InitialState
      ensures shortcuts == map[ctrlOrCmd + "+k" := OpenSearchModal]
    {
      this.icon := icon;
      lastIcon := Undefined;
      iconClass := "";
      iconStyle := "";
      var keys: map<string, string> := map[];
      keys := keys[ctrlOrCmd + "+k" := OpenSearchModal];
      shortcuts := keys;
    }

    /** `_setIconStyle`: resolves the current icon unless it is the one
        seen last, in which case nothing at all changes. */
    method SetIconStyle()
      modifies this
      ensures icon == old(icon) && shortcuts == old(shortcuts)
      ensures IconFields() == Step(old(IconFields()), icon)
      ensures old(icon) == old(lastIcon) ==> unchanged(this)
    {
      var icon := this.icon;
      if icon == lastIcon {
        return;
      }
      lastIcon := icon;
      if icon.Str? && icon.s != "" && HasHttpScheme(icon.s) {
        iconClass := "";
        iconStyle := BackgroundImage(icon.s);
        return;
      }
      var iconUrl := DefaultIconUrl;
      iconStyle := BackgroundImage(iconUrl);
      iconClass := DefaultIconClass;
    }

    /** `didReceiveAttrs`: takes the new `icon` attribute and runs the
        resolver on it. */
    method DidReceiveAttrs(newIcon: IconRef)
      modifies this
      ensures icon == newIcon && shortcuts == old(shortcuts)
      ensures IconFields() == Step(old(IconFields()), newIcon)
      ensures old(icon) == newIcon && old(lastIcon) == newIcon ==> unchanged(this)
    {
      icon := newIcon;
      SetIconStyle();
    }
  }

  /** Handing the component the same icon twice leaves it exactly as the
      first update left it: the second update changes no field at all. */
  method ReceiveSameIconTwice(menu: NavMenu, newIcon: IconRef)
    modifies menu
    ensures menu.icon == newIcon && menu.shortcuts == old(menu.shortcuts)
    ensures menu.IconFields() == Step(old(menu.IconFields()), newIcon)
  {
    menu.DidReceiveAttrs(newIcon);
    StepRemembersIcon(old(menu.IconFields()), newIcon);
    ghost var icon1, last1, class1, style1, keys1 :=
      menu.icon, menu.lastIcon, menu.iconClass, menu.iconStyle, menu.shortcuts;
    menu.DidReceiveAttrs(newIcon);
    assert menu.icon == icon1 && menu.lastIcon == last1 && menu.iconClass == class1
      && menu.iconStyle == style1 && menu.shortcuts == keys1;
  }
}
