/** apphub/app/config.py: the settings the core reads, as an immutable
    record. Reading the environment is not modelled; the defaults are. */
module Config {
  import opened Text

  datatype Settings = Settings(
    apphubRoot: string,
    storageRoot: string,
    maxUploadMb: int,
    allowedUploadExtensions: seq<string>,
    allowedMediaExtensions: seq<string>,
    clamavEnabled: bool,
    clamavSocket: string)

  /** `ALLOWED_*_EXTENSIONS.split(",")`: the list is the comma-separated
      pieces, kept as written (no stripping, no lower-casing). */
  function ExtensionList(env: string): (exts: seq<string>)
    ensures |exts| >= 1 && Join(exts, ',') == env
    ensures forall i :: 0 <= i < |exts| ==> ',' !in exts[i]
  {
    Split(env, ',')
  }

  /** `CLAMAV_ENABLED.lower() == "true"`. */
  predicate ClamavFlag(env: string) {
    Lower(env) == "true"
  }

  /** The defaults of the settings the core uses. */
  const Defaults := Settings(
    "/apphub",
    "/var/www/apphub/storage",
    500,
    [".dmg", ".exe", ".msi", ".pkg", ".zip", ".tar.gz", ".tgz"],
    [".png", ".jpg", ".jpeg", ".webp", ".gif", ".svg"],
    false,
    "/var/run/clamav/clamd.ctl")

  /** A trailing or doubled comma in the environment value puts an empty
      string into the extension list. */
  lemma TrailingCommaGivesEmptyEntry(env: string)
    ensures "" in ExtensionList(env + ",")
  {
    SplitConcat(env, "", ',');
    assert Split("", ',') == [""];
    assert env + "," == env + [','] + "";
  }

  /** The flag is case-insensitive in the value: "TRUE" and "True" enable. */
  lemma ClamavFlagSpellings()
    ensures ClamavFlag("true") && ClamavFlag("TRUE") && ClamavFlag("True")
    ensures !ClamavFlag("1") && !ClamavFlag("yes")
  {
    assert Lower("TRUE") == "true";
    assert Lower("True") == "true";
    assert Lower("true") == "true";
    assert Lower("1") == "1";
    assert |Lower("yes")| == 3;
  }
}
