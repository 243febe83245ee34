/*
 * The page-wide colour mode: one shared mode cell, and the update that puts
 * exactly one of the `light` and `dark` classes on the root element.
 */
module ColorMode {
  datatype Mode = Light | Dark | Auto

  const LightClass: string := "light"
  const DarkClass: string := "dark"

  /** Dark is shown for the dark mode, and for the automatic mode when the
    * system prefers dark. */
  predicate ShowsDark(mode: Mode, prefersDark: bool) {
    mode == Dark || (mode == Auto && prefersDark)
  }

  /** The class set after `updateClass`: both mode classes removed, then the
    * chosen one added. */
  function UpdatedClasses(classes: set<string>, mode: Mode, prefersDark: bool): (r: set<string>)
    ensures DarkClass in r <==> ShowsDark(mode, prefersDark)
    ensures LightClass in r <==> !ShowsDark(mode, prefersDark)
    ensures forall c :: c != LightClass && c != DarkClass ==> (c in r <==> c in classes)
  {
    (classes - {LightClass, DarkClass}) + {if ShowsDark(mode, prefersDark) then DarkClass else LightClass}
  }

  /** Exactly one of the two mode classes is present afterwards. */
  lemma ExactlyOneModeClass(classes: set<string>, mode: Mode, prefersDark: bool)
    ensures var r := UpdatedClasses(classes, mode, prefersDark);
      (LightClass in r) != (DarkClass in r)
  {
  }

  /** Re-running the update with the same mode and preference changes nothing. */
  lemma {:induction false} UpdateIdempotent(classes: set<string>, mode: Mode, prefersDark: bool)
    ensures var once := UpdatedClasses(classes, mode, prefersDark);
      UpdatedClasses(once, mode, prefersDark) == once
  {
    var once := UpdatedClasses(classes, mode, prefersDark);
    var twice := UpdatedClasses(once, mode, prefersDark);
    assert forall c :: c in twice <==> c in once;
  }

  /** The shared `colorMode` cell. */
  class ModeCell {
    var value: Mode

    constructor()
      ensures value == Auto
    {
      value := Auto;
    }
  }

  /** The root element's class list. */
  class RootElement {
    var classList: set<string>

    constructor(classes: set<string>)
      ensures classList == classes
    {
      classList := classes;
    }

    /** `updateClass`: remove both mode classes, then add the chosen one. */
    method UpdateClass(mode: ModeCell, prefersDark: bool)
      modifies this
      ensures classList == UpdatedClasses(old(classList), mode.value, prefersDark)
    {
      classList := classList - {LightClass, DarkClass};
      var isDark := mode.value == Dark || (mode.value == Auto && prefersDark);
      classList := classList + {if isDark then DarkClass else LightClass};
    }
  }

  /** The module's state: the one mode cell every caller shares. */
  class GlobalColorMode {
    const colorMode: ModeCell

    constructor()
      ensures fresh(colorMode) && colorMode.value == Auto
    {
      colorMode := new ModeCell();
    }

    /** `useGlobalColorMode`: always the same cell. */
    method UseGlobalColorMode() returns (r: ModeCell)
      ensures r == colorMode
    {
      r := colorMode;
    }
  }
}
