/**
 * `get_server_uptime`: the text the bot shows as the host's uptime. The three
 * regular expressions it uses are written out as string searches, each with a
 * declarative statement of what the regex engine matches.
 */
module Uptime {
  import opened Wrappers
  import opened Text

  /** The outcome of one `subprocess.run` with captured text output. */
  datatype ProcessResult =
    | Ran(stdout: string)  // the process ran (whatever its exit status); its standard output
    | Missing              // FileNotFoundError or SubprocessError: the handler of the first try catches it
    | Failed               // any other exception: the first try's handler misses it

  const Label: string := "Uptime: "
  const UpWord: string := "up "
  const Unknown: string := "Unknown ("
  const Unrecognized: string := Unknown + "neofetch available but format not recognized)"
  const Unavailable: string := Unknown + "neofetch not available)"

  /** Stop characters after the lazy capture of `up (.+?)(,|\n)` and of `up (.+?),`. */
  const CommaOrNewline: set<char> := {',', '\n'}
  const CommaOnly: set<char> := {','}

  /**
   * `Uptime: (.+)` matches at `i` with group 1 being `s[i + 8..j]`: the label,
   * then one or more characters other than a newline, as many as there are.
   */
  predicate LabelMatch(s: string, i: int, j: int)
  {
    0 <= i && i + |Label| < j <= |s| && s[i..i + |Label|] == Label
    && (forall k :: i + |Label| <= k < j ==> s[k] != '\n')
    && (j == |s| || s[j] == '\n')
  }

  /**
   * `up (.+?)` followed by a character of `stops` matches at `i` with group 1
   * being `s[i + 3..j]`: at least one character other than a newline, and as few
   * as possible, so no character of `stops` inside the group after its first.
   */
  predicate UpMatch(s: string, i: int, j: int, stops: set<char>)
  {
    0 <= i && i + |UpWord| < j < |s| && s[i..i + |UpWord|] == UpWord && s[j] in stops
    && (forall k :: i + |UpWord| <= k < j ==> s[k] != '\n')
    && (forall k :: i + |UpWord| < k < j ==> s[k] !in stops)
  }

  /** A match with group 1 ending at `j` and no match that starts before it. */
  ghost predicate LeftmostLabel(s: string, i: int, j: int)
  {
    LabelMatch(s, i, j) && forall i', j' :: 0 <= i' < i ==> !LabelMatch(s, i', j')
  }

  ghost predicate LeftmostUp(s: string, i: int, j: int, stops: set<char>)
  {
    UpMatch(s, i, j, stops) && forall i', j' :: 0 <= i' < i ==> !UpMatch(s, i', j', stops)
  }

  /** The end of the line that contains index `k`. */
  function LineEnd(s: string, k: nat): (j: nat)
    requires k <= |s|
    ensures k <= j <= |s| && (j == |s| || s[j] == '\n')
    ensures forall m :: k <= m < j ==> s[m] != '\n'
    decreases |s| - k
  {
    if k == |s| || s[k] == '\n' then k else LineEnd(s, k + 1)
  }

  /** The first index from `k` on that holds a newline or a character of `stops`. */
  function ScanTo(s: string, k: nat, stops: set<char>): (j: nat)
    requires k <= |s|
    ensures k <= j <= |s| && (j < |s| ==> s[j] == '\n' || s[j] in stops)
    ensures forall m :: k <= m < j ==> s[m] != '\n' && s[m] !in stops
    decreases |s| - k
  {
    if k == |s| || s[k] == '\n' || s[k] in stops then k else ScanTo(s, k + 1, stops)
  }

  /** `re.search(r'Uptime: (.+)', s)` from index `from`: the start and the end of group 1. */
  function SearchLabel(s: string, from: nat): (r: Option<(nat, nat)>)
    requires from <= |s|
    ensures r.Some? ==> from <= r.value.0 && LabelMatch(s, r.value.0, r.value.1)
    ensures r.Some? ==> forall i, j :: from <= i < r.value.0 ==> !LabelMatch(s, i, j)
    ensures r.None? ==> forall i, j :: from <= i ==> !LabelMatch(s, i, j)
    decreases |s| - from
  {
    if from + |Label| >= |s| then None
    else if s[from..from + |Label|] == Label && s[from + |Label|] != '\n' then
      Some((from, LineEnd(s, from + |Label|)))
    else SearchLabel(s, from + 1)
  }

  /** The one place a match at `i` can end: at the first stop or newline after the group's first character. */
  lemma UpMatchEnd(s: string, i: int, j: int, stops: set<char>)
    requires UpMatch(s, i, j, stops)
    ensures j == ScanTo(s, i + |UpWord| + 1, stops)
  {
  }

  /** `re.search(r'up (.+?)' + stop, s)` from `from`: the start and the end of group 1. */
  function SearchUp(s: string, from: nat, stops: set<char>): (r: Option<(nat, nat)>)
    requires from <= |s|
    ensures r.Some? ==> from <= r.value.0 && UpMatch(s, r.value.0, r.value.1, stops)
    ensures r.Some? ==> forall i, j :: from <= i < r.value.0 ==> !UpMatch(s, i, j, stops)
    ensures r.None? ==> forall i, j :: from <= i ==> !UpMatch(s, i, j, stops)
    decreases |s| - from
  {
    if from + |UpWord| >= |s| then None
    else
      var j := ScanTo(s, from + |UpWord| + 1, stops);
      if s[from..from + |UpWord|] == UpWord && s[from + |UpWord|] != '\n' && j < |s| && s[j] in stops then
        Some((from, j))
      else
        var r := SearchUp(s, from + 1, stops);
        assert forall j' :: !UpMatch(s, from, j', stops) by {
          forall j' | UpMatch(s, from, j', stops) ensures false {
            UpMatchEnd(s, from, j', stops);
          }
        }
        r
  }

  /** Group 1 of the first `Uptime: (.+)` match. */
  function LabelGroup(s: string): (r: Option<string>)
    ensures r.Some? ==> r.value != [] && forall k :: 0 <= k < |r.value| ==> r.value[k] != '\n'
  {
    match SearchLabel(s, 0)
    case Some((i, j)) => Some(s[i + |Label|..j])
    case None => None
  }

  /** Group 1 of the first `up (.+?)` match that a character of `stops` ends. */
  function UpGroup(s: string, stops: set<char>): (r: Option<string>)
    ensures r.Some? ==> r.value != [] && forall k :: 0 <= k < |r.value| ==> r.value[k] != '\n'
    ensures r.Some? ==> forall k :: 0 < k < |r.value| ==> r.value[k] !in stops
  {
    match SearchUp(s, 0, stops)
    case Some((i, j)) => Some(s[i + |UpWord|..j])
    case None => None
  }

  /** Neither fixed text starts or ends with whitespace. */
  lemma SentinelsTrimmed()
    ensures Trimmed(Unrecognized) && Trimmed(Unavailable)
  {
    assert Unrecognized[0] == Unknown[0] && Unavailable[0] == Unknown[0];
  }

  /** The text a neofetch output yields (the body of the first try). */
  function FromNeofetch(out: string): (r: string)
    ensures Trimmed(r)
  {
    SentinelsTrimmed();
    match LabelGroup(out)
    case Some(g) => Strip(g)
    case None =>
      match UpGroup(out, CommaOrNewline)
      case Some(g) => Strip(g)
      case None => Unrecognized
  }

  /** The platform fallback once neofetch is missing (the second try and the final return). */
  function FromPlatform(system: string, uptimeP: ProcessResult, uptime: ProcessResult): (r: string)
    ensures system != "Linux" ==> Trimmed(r)
  {
    SentinelsTrimmed();
    if system == "Linux" then
      match uptimeP
      case Ran(out) => RemoveAll(Strip(out), UpWord)
      case _ => Unavailable
    else if system == "Darwin" then
      match uptime
      case Ran(out) => (
        match UpGroup(out, CommaOnly)
        case Some(g) => Strip(g)
        case None => Unavailable)
      case _ => Unavailable
    else Unavailable
  }

  /**
   * `get_server_uptime()`, given what `neofetch --stdout`, `uptime -p` and
   * `uptime` would produce and what `platform.system()` returns. `None` is an
   * exception that leaves the function.
   */
  function ServerUptime(neofetch: ProcessResult, system: string, uptimeP: ProcessResult, uptime: ProcessResult): (r: Option<string>)
    ensures r.None? <==> neofetch == Failed
    ensures neofetch.Ran? ==> r.Some? && Trimmed(r.value)
  {
    match neofetch
    case Ran(out) => Some(FromNeofetch(out))
    case Missing => Some(FromPlatform(system, uptimeP, uptime))
    case Failed => None
  }

  /** `LabelGroup` finds group 1 of the leftmost match. */
  lemma LabelGroupLeftmost(s: string, i: nat, j: nat)
    requires LeftmostLabel(s, i, j)
    ensures LabelGroup(s) == Some(s[i + |Label|..j])
  {
    var r := SearchLabel(s, 0);
    assert r.Some?;
    assert r.value.0 == i;
  }

  /** `LabelGroup` finds nothing exactly when there is no match. */
  lemma LabelGroupNone(s: string)
    ensures LabelGroup(s).None? <==> forall i, j :: !LabelMatch(s, i, j)
  {
  }

  /** `UpGroup` finds group 1 of the leftmost match. */
  lemma UpGroupLeftmost(s: string, i: nat, j: nat, stops: set<char>)
    requires LeftmostUp(s, i, j, stops)
    ensures UpGroup(s, stops) == Some(s[i + |UpWord|..j])
  {
    var r := SearchUp(s, 0, stops);
    assert r.Some?;
    assert r.value.0 == i;
    UpMatchEnd(s, i, j, stops);
    UpMatchEnd(s, i, r.value.1, stops);
  }

  /** `UpGroup` finds nothing exactly when there is no match. */
  lemma UpGroupNone(s: string, stops: set<char>)
    ensures UpGroup(s, stops).None? <==> forall i, j :: !UpMatch(s, i, j, stops)
  {
  }

  // ---- What the chain yields, case by case ----

  /** The first `Uptime: ` line with something after the label wins, stripped. */
  lemma LabelWins(out: string, i: nat, j: nat, system: string, uptimeP: ProcessResult, uptime: ProcessResult)
    requires LeftmostLabel(out, i, j)
    ensures ServerUptime(Ran(out), system, uptimeP, uptime) == Some(Strip(out[i + |Label|..j]))
  {
    LabelGroupLeftmost(out, i, j);
  }

  /** Without any label match, the first `up ...` up to a comma or newline wins, stripped. */
  lemma UpWins(out: string, i: nat, j: nat, system: string, uptimeP: ProcessResult, uptime: ProcessResult)
    requires forall i', j' :: !LabelMatch(out, i', j')
    requires LeftmostUp(out, i, j, CommaOrNewline)
    ensures ServerUptime(Ran(out), system, uptimeP, uptime) == Some(Strip(out[i + |UpWord|..j]))
  {
    LabelGroupNone(out);
    UpGroupLeftmost(out, i, j, CommaOrNewline);
  }

  /** Neofetch ran but neither pattern matches: the fixed "format not recognized" text. */
  lemma NeitherPattern(out: string, system: string, uptimeP: ProcessResult, uptime: ProcessResult)
    requires forall i, j :: !LabelMatch(out, i, j)
    requires forall i, j :: !UpMatch(out, i, j, CommaOrNewline)
    ensures ServerUptime(Ran(out), system, uptimeP, uptime) == Some(Unrecognized)
  {
    LabelGroupNone(out);
    UpGroupNone(out, CommaOrNewline);
  }

  /** On Linux without neofetch: `uptime -p` stripped, every `up ` removed. */
  lemma LinuxFallback(out: string, uptime: ProcessResult)
    ensures ServerUptime(Missing, "Linux", Ran(out), uptime) == Some(RemoveAll(Strip(out), UpWord))
    ensures !Occurs(Strip(out), UpWord) ==> ServerUptime(Missing, "Linux", Ran(out), uptime) == Some(Strip(out))
  {
    RemoveAllFixedPoint(Strip(out), UpWord);
  }

  /** On macOS without neofetch: the first `up ...,` of `uptime`, stripped, if there is one. */
  lemma DarwinFallback(out: string, uptimeP: ProcessResult, i: nat, j: nat)
    requires LeftmostUp(out, i, j, CommaOnly)
    ensures ServerUptime(Missing, "Darwin", uptimeP, Ran(out)) == Some(Strip(out[i + |UpWord|..j]))
  {
    UpGroupLeftmost(out, i, j, CommaOnly);
  }

  /** Every other way without neofetch ends in the fixed "neofetch not available" text. */
  lemma UnavailableOtherwise(system: string, uptimeP: ProcessResult, uptime: ProcessResult)
    requires system == "Linux" ==> !uptimeP.Ran?
    requires system == "Darwin" ==> !uptime.Ran? || forall i, j :: !UpMatch(uptime.stdout, i, j, CommaOnly)
    ensures ServerUptime(Missing, system, uptimeP, uptime) == Some(Unavailable)
  {
    if system == "Darwin" && uptime.Ran? {
      UpGroupNone(uptime.stdout, CommaOnly);
    }
  }

  // ---- Examples ----

  lemma ExampleLabel(out: string, shown: string)
    requires out == "Uptime: 3 days" && shown == "3 days"
    ensures ServerUptime(Ran(out), "Linux", Missing, Missing) == Some(shown)
  {
    assert LabelMatch(out, 0, |out|);
    LabelGroupLeftmost(out, 0, |out|);
    assert out[8..14] == shown;
    StripTrimmed(shown);
  }

  lemma ExampleUp(out: string, shown: string)
    requires out == "up 2 hours," && shown == "2 hours"
    ensures ServerUptime(Ran(out), "Linux", Missing, Missing) == Some(shown)
  {
    forall i, j | 0 <= i && i + |Label| < j <= |out| ensures !LabelMatch(out, i, j) {
      assert out[i] != 'U' && Label[0] == 'U';
      assert out[i..i + |Label|][0] == out[i];
    }
    assert UpMatch(out, 0, 10, CommaOrNewline);
    LabelGroupNone(out);
    UpGroupLeftmost(out, 0, 10, CommaOrNewline);
    assert out[3..10] == shown;
    StripTrimmed(shown);
  }

  lemma ExampleUnavailable()
    ensures ServerUptime(Missing, "Windows", Missing, Missing) == Some(Unavailable)
  {
  }
}
