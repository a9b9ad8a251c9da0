/** The string helpers several components share. */
module Text {

  const SPACES := {' ', '\t', '\n', '\r', '\U{000B}', '\U{000C}', '\U{0085}', '\U{00A0}'}

  function TrimLeft(s: string, cut: set<char>): string {
    if s != "" && s[0] in cut then TrimLeft(s[1..], cut) else s
  }

  function TrimRight(s: string, cut: set<char>): string {
    if s != "" && s[|s| - 1] in cut then TrimRight(s[..|s| - 1], cut) else s
  }

  function Trim(s: string, cut: set<char>): string {
    TrimRight(TrimLeft(s, cut), cut)
  }

  /** strings.TrimSpace on Latin-1 text. */
  function TrimSpace(s: string): string {
    Trim(s, SPACES)
  }

  /** strings.Join */
  function Join(parts: seq<string>, sep: string): string {
    if parts == [] then ""
    else if |parts| == 1 then parts[0]
    else parts[0] + sep + Join(parts[1..], sep)
  }

  /** Trimming cuts exactly the outer white space. */
  lemma {:induction false} TrimSpaceExactly(s: string) returns (front: string, back: string)
    ensures s == front + TrimSpace(s) + back
    ensures (forall c :: c in front ==> c in SPACES) && (forall c :: c in back ==> c in SPACES)
    ensures var t := TrimSpace(s); t != "" ==> t[0] !in SPACES && t[|t| - 1] !in SPACES
  {
    front := LeftCut(s, SPACES);
    back := RightCut(TrimLeft(s, SPACES), SPACES);
  }

  lemma {:induction false} LeftCut(s: string, cut: set<char>) returns (front: string)
    ensures s == front + TrimLeft(s, cut) && forall c :: c in front ==> c in cut
    ensures TrimLeft(s, cut) != "" ==> TrimLeft(s, cut)[0] !in cut
  {
    front := "";
    if s != "" && s[0] in cut {
      var more := LeftCut(s[1..], cut);
      front := [s[0]] + more;
    }
  }

  lemma {:induction false} RightCut(s: string, cut: set<char>) returns (back: string)
    ensures s == TrimRight(s, cut) + back && forall c :: c in back ==> c in cut
    ensures TrimRight(s, cut) != "" ==> TrimRight(s, cut)[|TrimRight(s, cut)| - 1] !in cut
    ensures TrimRight(s, cut) <= s
  {
    back := "";
    if s != "" && s[|s| - 1] in cut {
      var more := RightCut(s[..|s| - 1], cut);
      back := more + [s[|s| - 1]];
    }
  }

  /** Nothing is left exactly of text that is all white space. */
  lemma TrimBlank(s: string)
    ensures TrimSpace(s) != "" <==> exists c :: c in s && c !in SPACES
  {
    var front, back := TrimSpaceExactly(s);
    var t := TrimSpace(s);
    if t != "" {
      assert t[0] in t && t[0] in front + t + back;
    }
    assert forall c :: c in s <==> c in front || c in t || c in back;
  }

  lemma TrimNothing(s: string, cut: set<char>)
    requires s != "" ==> s[0] !in cut && s[|s| - 1] !in cut
    ensures Trim(s, cut) == s
  {
  }
}
