/**
 * The sender handle typed at the USERNAME step: the `isValidUsername` check,
 * the `@` normalisation and the `self` shortcut.
 */
module Handles {
  import opened Wrappers
  import opened Text
  import opened Records

  /** `[a-zA-Z0-9_]{5,32}`: five to thirty-two word characters. */
  predicate IsWordRun(w: string) {
    5 <= |w| <= 32 && forall i :: 0 <= i < |w| ==> IsWordChar(w[i])
  }

  /** The language of `^@?[a-zA-Z0-9_]{5,32}$`: a word run, with or without one '@' in front. */
  predicate MatchesHandlePattern(u: string) {
    IsWordRun(u) || (|u| > 0 && u[0] == '@' && IsWordRun(u[1..]))
  }

  /** A stored sender: exactly one leading '@', then a word run. */
  predicate IsNormalizedHandle(h: string) {
    |h| > 0 && h[0] == '@' && IsWordRun(h[1..])
  }

  /** The number of word characters `s` starts with. */
  function WordPrefixLength(s: string): (n: nat)
    ensures n <= |s|
    ensures forall i :: 0 <= i < n ==> IsWordChar(s[i])
    ensures n < |s| ==> !IsWordChar(s[n])
  {
    if |s| > 0 && IsWordChar(s[0]) then 1 + WordPrefixLength(s[1..]) else 0
  }

  /**
   * `isValidUsername`, read the way a matcher runs the pattern: take an optional
   * '@', then a maximal run of word characters, which must reach the end of the
   * input and be 5 to 32 long. It accepts exactly the pattern's language.
   */
  function IsValidUsername(u: string): (ok: bool)
    ensures ok <==> MatchesHandlePattern(u)
  {
    var body := if |u| > 0 && u[0] == '@' then u[1..] else u;
    var n := WordPrefixLength(body);
    n == |body| && 5 <= n <= 32
  }

  /**
   * Prefixing '@' to a handle that lacks one: a valid handle gets one
   * leading '@' and nothing else changes.
   */
  function Normalize(u: string): (h: string)
    requires MatchesHandlePattern(u)
    ensures IsNormalizedHandle(h)
    ensures u == h || u == h[1..]
  {
    if StartsWith(u, "@") then u else "@" + u
  }

  /** Why a USERNAME answer is refused; either way the step does not advance. */
  datatype SenderError = MissingHandle | InvalidFormat

  /** The reporter asked for their own username: the untrimmed text is `self` in any letter case. */
  predicate IsSelf(text: string) {
    EqualsIgnoringCase(text, "self")
  }

  /** The word part of a handle that matched the pattern. */
  function WordPart(u: string): string {
    if |u| > 0 && u[0] == '@' then u[1..] else u
  }

  function Checked(candidate: string): (r: Result<string, SenderError>)
    ensures r.Success? <==> MatchesHandlePattern(candidate)
    ensures r.Success? ==> r.value == "@" + WordPart(candidate)
    ensures r.Failure? ==> r.error == InvalidFormat
  {
    if IsValidUsername(candidate) then Success(Normalize(candidate)) else Failure(InvalidFormat)
  }

  /**
   * The USERNAME step's decision. `self` stands for the reporter's own Telegram
   * username and fails when there is none; any other text is trimmed and checked
   * against the handle pattern. A success is always a normalized handle.
   */
  function ResolveSender(text: string, from: From): (r: Result<string, SenderError>)
    ensures r.Success? ==> IsNormalizedHandle(r.value)
    ensures r == Failure(MissingHandle) <==> IsSelf(text) && from.username == ""
    ensures IsSelf(text) && from.username != "" ==>
              r == (if IsWordRun(from.username) then Success("@" + from.username) else Failure(InvalidFormat))
    ensures !IsSelf(text) ==>
              r == (if MatchesHandlePattern(Trim(text)) then Success("@" + WordPart(Trim(text))) else Failure(InvalidFormat))
  {
    if IsSelf(text) then
      if from.username == "" then Failure(MissingHandle)
      else
        var candidate := "@" + from.username;
        assert candidate[1..] == from.username;
        assert !IsWordRun(candidate) by { assert !IsWordChar(candidate[0]); }
        Checked(candidate)
    else Checked(Trim(text))
  }
}
