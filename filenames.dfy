/** Resolution of the settings file path from what the user typed (the identical blocks in
    `load_settings` and `save_settings`, src/menu/mod.rs), and the image path of
    `render_image`. */
module FileNames {
  import opened Settings

  /** Rust's `char::is_whitespace`: the Unicode White_Space property. */
  predicate IsWhitespace(c: char): (r: bool)
    ensures c == ' ' || c == '\t' || c == '\n' || c == '\r' ==> r
    ensures ('a' <= c <= 'z') || ('A' <= c <= 'Z') || ('0' <= c <= '9') || c == '.' || c == '/' ==> !r
  {
    c == ' ' || ('\t' <= c <= '\r') || c == '\U{85}' || c == '\U{A0}' || c == '\U{1680}'
    || ('\U{2000}' <= c <= '\U{200A}') || c == '\U{2028}' || c == '\U{2029}'
    || c == '\U{202F}' || c == '\U{205F}' || c == '\U{3000}'
  }

  /** Index of the first non-whitespace character at or after `i` (or `|s|`). */
  function TrimStartIndex(s: string, i: nat): (r: nat)
    requires i <= |s|
    decreases |s| - i
    ensures i <= r <= |s|
    ensures forall k :: i <= k < r ==> IsWhitespace(s[k])
    ensures r < |s| ==> !IsWhitespace(s[r])
  {
    if i == |s| || !IsWhitespace(s[i]) then i else TrimStartIndex(s, i + 1)
  }

  /** End of the text once the whitespace run ending at `j` is dropped, never below `lo`. */
  function TrimEndIndex(s: string, lo: nat, j: nat): (r: nat)
    requires lo <= j <= |s|
    decreases j
    ensures lo <= r <= j
    ensures forall k :: r <= k < j ==> IsWhitespace(s[k])
    ensures r > lo ==> !IsWhitespace(s[r - 1])
  {
    if j == lo || !IsWhitespace(s[j - 1]) then j else TrimEndIndex(s, lo, j - 1)
  }

  /** `str::trim`: drops leading and trailing whitespace. */
  function Trim(s: string): (r: string)
    ensures |r| <= |s|
    ensures r != [] ==> !IsWhitespace(r[0]) && !IsWhitespace(r[|r| - 1])
  {
    var i := TrimStartIndex(s, 0);
    s[i..TrimEndIndex(s, i, |s|)]
  }

  /** The trimmed string is the part of `s` between a whitespace prefix and a whitespace
      suffix, and starts and ends with a non-whitespace character. */
  lemma TrimIsInfix(s: string)
    ensures var i := TrimStartIndex(s, 0);
            i + |Trim(s)| <= |s| && Trim(s) == s[i..i + |Trim(s)|]
            && (forall k :: 0 <= k < i ==> IsWhitespace(s[k]))
            && (forall k :: i + |Trim(s)| <= k < |s| ==> IsWhitespace(s[k]))
    ensures Trim(s) != [] ==> !IsWhitespace(Trim(s)[0]) && !IsWhitespace(Trim(s)[|Trim(s)| - 1])
    ensures Trim(s) == [] <==> forall k :: 0 <= k < |s| ==> IsWhitespace(s[k])
  {
  }

  /** A string with no whitespace at either end is its own trim. */
  lemma TrimOfTrimmed(s: string)
    requires s != [] ==> !IsWhitespace(s[0]) && !IsWhitespace(s[|s| - 1])
    ensures Trim(s) == s
  {
  }

  /** Trimming twice is trimming once. */
  lemma TrimIdempotent(s: string)
    ensures Trim(Trim(s)) == Trim(s)
  {
  }

  /** The file name chosen from the user's entry: the default for an empty entry, the entry
      itself if it names an extension, otherwise the entry with `.toml` appended. */
  function ResolveFileName(input: string, defaultName: string): (name: string)
    ensures Trim(input) == [] ==> name == defaultName
    ensures Trim(input) != [] ==>
              '.' in name && |Trim(input)| <= |name| && name[..|Trim(input)|] == Trim(input)
    ensures Trim(input) != [] && '.' in Trim(input) ==> name == Trim(input)
    ensures Trim(input) != [] && '.' !in Trim(input) ==>
              name == Trim(input) + ".toml"
  {
    var fileName := Trim(input);
    if fileName == [] then defaultName
    else if '.' in fileName then fileName
    else fileName + ".toml"
  }

  /** A trimmed, non-empty name with an extension resolves to itself. */
  lemma ResolveKeepsName(name: string, defaultName: string)
    requires name != [] && Trim(name) == name && '.' in name
    ensures ResolveFileName(name, defaultName) == name
  {
  }

  /** The name `stem.toml` has no surrounding whitespace when the stem has none. */
  lemma TomlNameIsTrimmed(stem: string)
    requires stem != [] && !IsWhitespace(stem[0])
    ensures Trim(stem + ".toml") == stem + ".toml"
    ensures '.' in stem + ".toml"
  {
  }

  /** Resolving an already resolved name changes nothing, provided the default itself has no
      surrounding whitespace and is either empty or has an extension. */
  lemma ResolveIdempotent(input: string, defaultName: string)
    requires Trim(defaultName) == defaultName
    requires defaultName == [] || '.' in defaultName
    ensures ResolveFileName(ResolveFileName(input, defaultName), defaultName)
            == ResolveFileName(input, defaultName)
  {
    var t := Trim(input);
    if t == [] {
      if defaultName != [] {
        ResolveKeepsName(defaultName, defaultName);
      }
    } else if '.' in t {
      TrimIdempotent(input);
      ResolveKeepsName(t, defaultName);
    } else {
      TomlNameIsTrimmed(t);
      ResolveKeepsName(t + ".toml", defaultName);
    }
  }

  /** `format!("{}/{}", folder, name)`. */
  function JoinPath(folder: string, name: string): (path: string)
    ensures |path| == |folder| + 1 + |name|
    ensures path[..|folder|] == folder && path[|folder|] == '/' && path[|folder| + 1..] == name
  {
    folder + "/" + name
  }

  /** The settings file `load_settings` reads and `save_settings` writes. */
  function SettingsFilePath(settings: Settings, input: string): (path: string)
    ensures |path| > |settings.fractalsFolder|
    ensures path[..|settings.fractalsFolder|] == settings.fractalsFolder
    ensures path[|settings.fractalsFolder|] == '/'
    ensures path[|settings.fractalsFolder| + 1..] == ResolveFileName(input, settings.fractalFile)
  {
    JoinPath(settings.fractalsFolder, ResolveFileName(input, settings.fractalFile))
  }

  /** The image file `render_image` writes: the trimmed entry, with no default and no
      extension added. */
  function ImageFilePath(settings: Settings, input: string): (path: string)
    ensures |path| > |settings.fractalsFolder|
    ensures path[..|settings.fractalsFolder|] == settings.fractalsFolder
    ensures path[|settings.fractalsFolder|] == '/'
    ensures path[|settings.fractalsFolder| + 1..] == Trim(input)
  {
    JoinPath(settings.fractalsFolder, Trim(input))
  }
}
