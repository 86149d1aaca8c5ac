/**
 * OSystem_Qt: the backend's system object, as far as it computes values itself
 * (features, log routing, locale, screenshot and configuration paths, the log
 * file). Environment variables, setlocale, QStandardPaths and the file system's
 * answers are parameters.
 */
module Platform {
  import opened Wrappers
  import opened Events
  import Graphics
  import FileSystem

  /** OSystem_Qt::hasFeature: clipboard, keyboard mouse speed and URL opening, else the modular backend's answer. */
  function HasFeature(f: Feature, base: Feature -> bool): (r: bool)
    ensures f in {kFeatureClipboardSupport, kFeatureKbdMouseSpeed, kFeatureOpenUrl} ==> r
    ensures !(f in {kFeatureClipboardSupport, kFeatureKbdMouseSpeed, kFeatureOpenUrl}) ==> r == base(f)
  {
    if f == kFeatureClipboardSupport then true
    else if f == kFeatureKbdMouseSpeed then true
    else if f == kFeatureOpenUrl then true
    else base(f)
  }

  /**
   * With the graphics manager answering for the modular backend, the system reports
   * the three features of its own and the three of the graphics manager.
   */
  lemma BackendFeatures(f: Feature, base: Feature -> bool)
    requires f in {kFeatureClipboardSupport, kFeatureKbdMouseSpeed, kFeatureOpenUrl,
                   kFeatureFullscreenMode, kFeatureStretchMode, kFeatureIconifyWindow}
    ensures HasFeature(f, g => Graphics.HasFeature(g, base))
  {
  }

  /** LogMessageType::Type. */
  datatype LogMessageType = kInfo | kError | kWarning | kDebug

  datatype Stream = Stdout | Stderr

  /** What logMessage writes: the console stream and text, and the text given to the logger if there is one. */
  datatype LogWrites = LogWrites(stream: Stream, console: string, logged: Option<string>)

  /** logMessage: informational and debug messages go to stdout, the rest to stderr; the logger gets a copy. */
  function LogMessage(kind: LogMessageType, message: string, hasLogger: bool): (w: LogWrites)
    ensures w.stream == Stdout <==> kind == kInfo || kind == kDebug
    ensures w.console == message
    ensures w.logged.Some? <==> hasLogger
    ensures w.logged.Some? ==> w.logged.value == message
  {
    var output := if kind == kInfo || kind == kDebug then Stdout else Stderr;
    LogWrites(output, message, if hasLogger then Some(message) else None)
  }

  /** The characters at which the locale's language part ends: charset, modifier or a blank. */
  predicate IsLocaleSeparator(c: char) {
    c == '.' || c == ' ' || c == '@'
  }

  /** The longest prefix of `locale` without a separator. */
  function LocaleBase(locale: string): (b: string)
    ensures |b| <= |locale| && b == locale[..|b|]
    ensures forall k | 0 <= k < |b| :: !IsLocaleSeparator(b[k])
    ensures |b| < |locale| ==> IsLocaleSeparator(locale[|b|])
  {
    if |locale| == 0 then ""
    else if IsLocaleSeparator(locale[0]) then ""
    else [locale[0]] + LocaleBase(locale[1..])
  }

  /** Stripping is idempotent, and a base followed by a separator strips back to the base. */
  lemma {:induction false} LocaleBaseOfBase(base: string, rest: string)
    requires forall k | 0 <= k < |base| :: !IsLocaleSeparator(base[k])
    requires |rest| == 0 || IsLocaleSeparator(rest[0])
    ensures LocaleBase(base + rest) == base
    decreases |base|
  {
    if |base| == 0 {
      assert base + rest == rest;
    } else {
      assert (base + rest)[1..] == base[1..] + rest;
      LocaleBaseOfBase(base[1..], rest);
      assert base == [base[0]] + base[1..];
    }
  }

  /**
   * getSystemLanguage on POSIX: `locale` is what setlocale(LC_ALL, "") returned and
   * `fallback` the modular backend's answer, used when the locale is empty.
   */
  method GetSystemLanguage(locale: string, fallback: string) returns (language: string)
    ensures locale == "" ==> language == fallback
    ensures locale != "" ==> language == LocaleBase(locale)
  {
    if |locale| == 0 {
      return fallback;
    }
    var length := 0;
    while length < |locale|
      invariant 0 <= length <= |locale|
      invariant forall k | 0 <= k < length :: !IsLocaleSeparator(locale[k])
    {
      if IsLocaleSeparator(locale[length]) {
        break;
      }
      length := length + 1;
    }
    language := locale[..length];
    LocaleBaseOfBase(language, locale[length..]);
    assert language + locale[length..] == locale;
  }

  /** getScreenshotsPath: the configured path with a trailing '/', or empty when none is configured. */
  function ScreenshotsPath(configured: string): (p: string)
    ensures configured == "" ==> p == ""
    ensures configured != "" ==> |p| > 0 && p[|p| - 1] == '/'
    ensures p == configured || p == configured + "/"
  {
    if |configured| > 0 && configured[|configured| - 1] != '/' then configured + "/" else configured
  }

  /** Asking again for the screenshots path of the answer gives the same answer. */
  lemma ScreenshotsPathIdempotent(configured: string)
    ensures ScreenshotsPath(ScreenshotsPath(configured)) == ScreenshotsPath(configured)
  {
  }

  /**
   * getDefaultConfigFileName: "scummvm.ini" in the application's configuration
   * directory when that is known and the full name fits below MAXPATHLEN, else a
   * bare "scummvm.ini".
   */
  function DefaultConfigFileName(prefix: string, maxPathLen: int): (name: string)
    ensures prefix != "" && |prefix| + 12 < maxPathLen ==> name == prefix + "/scummvm.ini" && |name| < maxPathLen
    ensures !(prefix != "" && |prefix| + 12 < maxPathLen) ==> name == "scummvm.ini"
  {
    if |prefix| > 0 && |prefix| + 1 + 11 < maxPathLen then prefix + "/scummvm.ini" else "scummvm.ini"
  }

  /** Every default configuration name ends in the file name itself. */
  lemma ConfigFileNameSuffix(prefix: string, maxPathLen: int)
    ensures var name := DefaultConfigFileName(prefix, maxPathLen);
            |name| >= 11 && name[|name| - 11..] == "scummvm.ini"
  {
  }

  /** The platforms createLogFile distinguishes. */
  datatype Platform = MacOSX | Posix | OtherPlatform

  /**
   * The log directory createLogFile tries to create: ~/Library/Logs on macOS (none
   * without HOME); elsewhere scummvm/logs under $XDG_CACHE_HOME on POSIX when it is
   * set and non-empty, else under the generic cache location.
   */
  function LogDirectory(platform: Platform, home: Option<string>, xdgCacheHome: Option<string>,
                        genericCache: string): (dir: Option<string>)
    ensures dir.None? <==> platform == MacOSX && home.None?
    ensures platform == MacOSX && home.Some? ==> dir == Some(home.value + "/" + "Library/Logs")
    ensures platform == Posix && xdgCacheHome.Some? && xdgCacheHome.value != "" ==>
              dir == Some(xdgCacheHome.value + "/" + "scummvm/logs")
    ensures (platform == OtherPlatform || (platform == Posix && (xdgCacheHome.None? || xdgCacheHome.value == ""))) ==>
              dir == Some(genericCache + "/" + "scummvm/logs")
  {
    if platform == MacOSX then
      if home.None? then None else Some(home.value + "/" + "Library/Logs")
    else if platform == Posix && xdgCacheHome.Some? && xdgCacheHome.value != "" then
      Some(xdgCacheHome.value + "/" + "scummvm/logs")
    else
      Some(genericCache + "/" + "scummvm/logs")
  }

  class OSystemQt {
    /** _logFilePath: the open log file's path, empty when none is open. */
    var logFilePath: string

    constructor()
      ensures logFilePath == ""
    {
      logFilePath := "";
    }

    /**
     * createLogFile: create the log directory as a QtFilesystemNode directory, then
     * open scummvm.log in it. `dirExisted`, `mkpathOk` and `dirAfter` are the file
     * system's answers for the directory, `streamOk` whether the file opened. The
     * result says whether a stream was returned.
     */
    method CreateLogFile(platform: Platform, home: Option<string>, xdgCacheHome: Option<string>, genericCache: string,
                         dirExisted: bool, mkpathOk: bool, dirAfter: FileSystem.FileInfo, streamOk: bool)
      returns (stream: bool)
      modifies this
      ensures var dir := LogDirectory(platform, home, xdgCacheHome, genericCache);
              stream <==> dir.Some? && FileSystem.CreateSucceeded(true, dirExisted, mkpathOk, false, dirAfter) && streamOk
      ensures stream ==> logFilePath == LogDirectory(platform, home, xdgCacheHome, genericCache).value + "/scummvm.log"
      ensures !stream ==> logFilePath == ""
    {
      logFilePath := "";
      var path: string;
      var logFile: string;
      if platform == MacOSX {
        if home.None? {
          return false;
        }
        path := home.value;
        logFile := "Library/Logs";
      } else {
        var prefix: Option<string> := None;
        if platform == Posix {
          prefix := xdgCacheHome;
        }
        if prefix.None? || prefix.value == "" {
          path := genericCache;
        } else {
          path := prefix.value;
        }
        logFile := "scummvm/logs";
      }
      path := path + "/";
      path := path + logFile;
      assert LogDirectory(platform, home, xdgCacheHome, genericCache) == Some(path);
      if !FileSystem.CreateSucceeded(true, dirExisted, mkpathOk, false, dirAfter) {
        return false;
      }
      logFile := path;
      logFile := logFile + "/scummvm.log";
      if streamOk {
        logFilePath := logFile;
      }
      return streamOk;
    }
  }
}
