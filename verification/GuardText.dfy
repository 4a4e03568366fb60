/** Text and ordering helpers shared by the two halves of the guard-receipt protocol. */
module GuardText {

  /** Python's whitespace for str.strip. */
  predicate IsSpace(c: char) {
    var n := c as int;
    || 9 <= n <= 13 || 28 <= n <= 32 || n == 0x85 || n == 0xA0 || n == 0x1680
    || 0x2000 <= n <= 0x200A || n == 0x2028 || n == 0x2029 || n == 0x202F || n == 0x205F || n == 0x3000
  }

  function StripLeft(s: string): string {
    if s != [] && IsSpace(s[0]) then StripLeft(s[1..]) else s
  }

  function StripRight(s: string): string {
    if s != [] && IsSpace(s[|s| - 1]) then StripRight(s[..|s| - 1]) else s
  }

  function Strip(s: string): string { StripRight(StripLeft(s)) }

  /** The part of s before its first c. */
  function Before(s: string, c: char): string {
    if s == [] || s[0] == c then [] else [s[0]] + Before(s[1..], c)
  }

  /** The action of a warning filter is its first colon-separated field. */
  predicate ErrorFilter(filter: string) { Strip(Before(filter, ':')) == "error" }

  predicate Contains(s: string, part: string) {
    part <= s || (s != [] && Contains(s[1..], part))
  }

  /** The text after the last separator, or all of it. */
  function LastSegment(s: string): string {
    if s == [] || !Contains(s, "::") then s
    else if Contains(s[1..], "::") then LastSegment(s[1..])
    else s[2..]
  }

  /** The producer's matching rule. */
  predicate Matches(guard: string, concrete: string) {
    || concrete == guard
    || (if !Contains(guard, "::") then guard + "::" <= concrete
        else !Contains(LastSegment(guard), "[") && guard + "[" <= concrete)
  }

  /** The validator's matching rule, written independently. */
  predicate BoundTo(guard: string, nodeid: string) {
    || nodeid == guard
    || guard + "[" <= nodeid
    || (!Contains(guard, "::") && guard + "::" <= nodeid)
  }

  lemma MatchesIsBound(guard: string, concrete: string)
    requires Matches(guard, concrete)
    ensures BoundTo(guard, concrete)
  {
  }
}
