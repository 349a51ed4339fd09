/**
 * The regular-expression engine is a foreign library; the model only sees
 * what a successful search hands back: the capture groups of the leftmost match.
 */
module Regexes {
  import opened Wrappers

  /**
   * The groups of one successful match. Index 0 is the whole match and always
   * participates; index i >= 1 is the i-th parenthesised group, `None` when it
   * did not take part in the match.
   */
  type Captures = c: seq<Option<string>> | |c| >= 1 && c[0].Some? witness [Some("")]

  /** A compiled pattern, reduced to its search: `None` when nothing in the text matches. */
  datatype Regex = Regex(captures: string -> Option<Captures>)

  /** Why a pattern failed to compile; its contents belong to the regex library. */
  datatype RegexError = RegexError(message: string)

  /**
   * The text of group `i`, or "" when the group did not participate or does
   * not exist; a missing group reads as the empty string.
   */
  function GroupText(caps: Captures, i: nat): (s: string)
    ensures i < |caps| && caps[i].Some? ==> s == caps[i].value
    ensures s != "" ==> i < |caps| && caps[i] == Some(s)
  {
    if i < |caps| && caps[i].Some? then caps[i].value else ""
  }
}
