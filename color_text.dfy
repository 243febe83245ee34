/** `colorText`: wraps a message in an ANSI colour escape and a reset. */
module ColorText {
  import opened Wrappers
  import opened Text

  const Reset: string := "\U{1b}[0m"

  /** The colour table: its seven names and their escape prefixes. */
  function ColorCode(name: string): (r: Option<string>)
    ensures r.Some? <==> name in ColorNames
    ensures r.Some? ==> |r.value| > 0 && r.value[0] == '\U{1b}'
  {
    match name
    case "rouge" => Some("\U{1b}[91m")
    case "vert_fonce" => Some("\U{1b}[32;1m")
    case "jaune" => Some("\U{1b}[93m")
    case "bleu" => Some("\U{1b}[94m")
    case "magenta" => Some("\U{1b}[95m")
    case "cyan" => Some("\U{1b}[96m")
    case "orange" => Some("\U{1b}[38;5;208m")
    case _ => None
  }

  const ColorNames: set<string> :=
    {"rouge", "vert_fonce", "jaune", "bleu", "magenta", "cyan", "orange"}

  lemma SevenColors()
    ensures |ColorNames| == 7
  {
    var names := ["rouge", "vert_fonce", "jaune", "bleu", "magenta", "cyan", "orange"];
    assert forall i, j :: 0 <= i < j < 7 ==> names[i] != names[j];
    assert ColorNames == set i | 0 <= i < 7 :: names[i] by {
      assert names[0] == "rouge" && names[1] == "vert_fonce" && names[2] == "jaune";
      assert names[3] == "bleu" && names[4] == "magenta" && names[5] == "cyan";
      assert names[6] == "orange";
    }
    DistinctCard(names);
  }

  /** `colorText(text, color)`; an unknown colour name raises `KeyError` (here: None). */
  function Colorize(text: string, color: string): (r: Option<string>)
    ensures r.Some? <==> color in ColorNames
    ensures r.Some? ==> exists p :: ColorCode(color) == Some(p) && r.value == p + text + Reset
  {
    match ColorCode(color)
    case None => None
    case Some(prefix) => Some(prefix + text + Reset)
  }

  /** Removing the colour prefix and the four-character reset gives the text back. */
  lemma StripColor(text: string, color: string)
    requires color in ColorNames
    ensures |Reset| == 4
    ensures var out := Colorize(text, color).value;
            var n := |ColorCode(color).value|;
            n + 4 <= |out| && out[n..|out| - 4] == text
  {
    var p := ColorCode(color).value;
    var out := p + text + Reset;
    assert out[|p|..|out| - 4] == text;
  }
}
