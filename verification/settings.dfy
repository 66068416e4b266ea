/**
 The plugin's tunables. Where the user's settings say nothing, the
 fallback values of the common module apply.
 */
module Settings {

  datatype Config = Config(
    maxLineLength: nat,
    maxLines: nat,
    minDuration: int,
    maxDuration: int,
    tags: seq<string>,
    placeholder: string,
    placeholdersInsteadOfEmptyLines: bool)

  /** The fallback values used when a setting is absent. */
  const Defaults: Config := Config(41, 3, 500, 6000, ["b", "i", "u", "font"], "[ ... ]", true)

  /** The title placeholder the older single-file edition hard-codes. */
  const LegacyPlaceholder: string := "[ ... ]"

  /**
   Which copy of the plugin is described: the package under `plugins/`,
   or the older single file `marlant.py` whose join and translation-file
   rules differ.
   */
  datatype Edition = Plugin | Legacy

  /** The legacy edition's placeholder agrees with the plugin's fallback. */
  lemma DefaultsAgree()
    ensures Defaults.placeholder == LegacyPlaceholder
    ensures Defaults.maxLineLength == 41 && Defaults.maxLines == 3
    ensures Defaults.minDuration == 500 && Defaults.maxDuration == 6000
    ensures Defaults.tags == ["b", "i", "u", "font"] && Defaults.placeholdersInsteadOfEmptyLines
  {
  }
}
