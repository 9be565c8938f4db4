/**
 * The byte-wise string functions the builder calls: `strtolower` and
 * `ucwords`. Both change ASCII letters only.
 */
module PhpStrings {

  function ToLower(c: char): char {
    if 'A' <= c <= 'Z' then (c as int + 32) as char else c
  }

  function ToUpper(c: char): char {
    if 'a' <= c <= 'z' then (c as int - 32) as char else c
  }

  /** `strtolower`: every ASCII capital letter replaced by its small letter. */
  function StrToLower(s: string): (r: string)
    ensures |r| == |s|
    ensures forall i :: 0 <= i < |s| ==> r[i] == ToLower(s[i])
  {
    if s == [] then [] else [ToLower(s[0])] + StrToLower(s[1..])
  }

  /** The default word delimiters of `ucwords`: space, \t, \r, \n, \f and \v. */
  predicate IsDelimiter(c: char) {
    c == ' ' || c == '\t' || c == '\r' || c == '\n' || c == 12 as char || c == 11 as char
  }

  /**
   * `ucwords` on the rest `s` of a string; `atWordStart` says whether the
   * character before `s` was a delimiter (or `s` begins the string).
   */
  function UcWordsFrom(s: string, atWordStart: bool): (r: string)
    ensures |r| == |s|
    ensures |s| > 0 ==> r[0] == if atWordStart then ToUpper(s[0]) else s[0]
    ensures forall i :: 0 < i < |s| ==> r[i] == if IsDelimiter(s[i - 1]) then ToUpper(s[i]) else s[i]
  {
    if s == [] then []
    else
      var c := if atWordStart then ToUpper(s[0]) else s[0];
      [c] + UcWordsFrom(s[1..], IsDelimiter(s[0]))
  }

  /**
   * `ucwords`: the first character, and every character that follows a
   * delimiter, upper-cased; everything else as it was.
   */
  function UcWords(s: string): (r: string)
    ensures |r| == |s|
    ensures forall i :: 0 <= i < |s| ==>
      r[i] == if i == 0 || IsDelimiter(s[i - 1]) then ToUpper(s[i]) else s[i]
  {
    UcWordsFrom(s, true)
  }

  /**
   * `strtolower($direction) === 'asc'` holds exactly for the eight ways of
   * writing "asc" in any mix of cases.
   */
  lemma {:induction false} LowerIsAsc(d: string)
    ensures StrToLower(d) == "asc" <==>
      |d| == 3 && d[0] in "aA" && d[1] in "sS" && d[2] in "cC"
  {
    var l := StrToLower(d);
    if |d| == 3 {
      assert l == "asc" <==> l[0] == 'a' && l[1] == 's' && l[2] == 'c';
    }
  }
}
