/**
 * The plugin bootstrap class (includes/class-as-wp-admin-customization.php):
 * the version fallback of its constructor and the label derivation used to
 * name the custom post type and taxonomy.
 */
module Labels {
  import opened Wrappers
  import opened PhpStrings

  /** The version string: the `PLUGIN_NAME_VERSION` constant when it is defined, else `1.0.0`. */
  function PluginVersion(definedVersion: Option<string>): (v: string)
    ensures definedVersion.Some? ==> v == definedVersion.value
    ensures definedVersion.None? ==> v == "1.0.0"
  {
    match definedVersion
    case Some(version) => version
    case None => "1.0.0"
  }

  /** The `name`, `single` and `plural` entries of the array `get_sanitized_labels` returns. */
  datatype Labels = Labels(name: string, single: string, plural: string)

  /** The naive English plural: a final lower-case `y` becomes `ies`, anything else gets an `s`. */
  function Pluralize(single: string): (plural: string)
    ensures single != [] && single[|single| - 1] == 'y' ==>
              plural == single[..|single| - 1] + "ies"
    ensures !(single != [] && single[|single| - 1] == 'y') ==> plural == single + "s"
  {
    if single != [] && single[|single| - 1] == 'y' then single[..|single| - 1] + "ies"
    else single + "s"
  }

  /**
   * Labels of a post type or taxonomy name: whitespace runs collapsed to one
   * space, then lower-cased, then every word capitalised.
   */
  function GetSanitizedLabels(text: string): (r: Labels)
    // the name is the text with its whitespace collapsed, in title case
    ensures |r.name| == |CollapseWhitespace(text)|
    ensures forall i :: 0 <= i < |r.name| ==>
              ToLowerChar(r.name[i]) == ToLowerChar(CollapseWhitespace(text)[i])
    ensures forall i :: 0 <= i < |r.name| && StartsWord(r.name, i) ==> !IsLower(r.name[i])
    ensures forall i :: 0 <= i < |r.name| && !StartsWord(r.name, i) ==> !IsUpper(r.name[i])
    ensures forall i :: 0 <= i < |r.name| - 1 ==> !(IsPcreSpace(r.name[i]) && IsPcreSpace(r.name[i + 1]))
    // `ucfirst` of the name changes nothing
    ensures r.single == r.name
    ensures r.plural == Pluralize(r.single)
  {
    var collapsed := CollapseWhitespace(text);
    CollapseIsCollapsed(text);
    var name := UcWords(StrToLower(collapsed));
    StrToLowerShape(collapsed);
    UcWordsShape(StrToLower(collapsed));
    UcFirstOfUcWords(StrToLower(collapsed));
    var single := UcFirst(name);
    Labels(name, single, Pluralize(single))
  }

  /** The post type the plugin registers, `anu rag`. */
  lemma PostTypeLabels(text: string)
    requires text == "anu rag"
    ensures GetSanitizedLabels(text) == Labels("Anu Rag", "Anu Rag", "Anu Rags")
  {
    assert text == "anu" + " " + "rag";
    WordsCollapsed("anu", "rag");
    CollapseCollapsed(text);
    StrToLowerOfLower(text);
    var w := UcWords(text);
    assert w == "Anu Rag";
  }

  /** The taxonomy the plugin registers, `sin gh`. */
  lemma TaxonomyLabels(text: string)
    requires text == "sin gh"
    ensures GetSanitizedLabels(text) == Labels("Sin Gh", "Sin Gh", "Sin Ghs")
  {
    assert text == "sin" + " " + "gh";
    WordsCollapsed("sin", "gh");
    CollapseCollapsed(text);
    StrToLowerOfLower(text);
    var w := UcWords(text);
    assert w == "Sin Gh";
  }
}
