/**
 * The task record shared by every component of the to-do list, together with the
 * small pieces of JavaScript semantics the components rely on: truthiness of an
 * identifier, `a || b` on strings, and `String.prototype.trim`.
 */
module Tasks {
  import opened Wrappers

  /** A date as an instant; the dayjs object that carries it in the app is not modelled. */
  type Timestamp = int

  /**
   * A task as the components see it. `id` is `None` for a task that has none
   * (the draft built by the add form has no `id` key; the dialog's blank task has `id: null`).
   * `priority` is the raw string of a select box ("high", "medium", "low", or "" when unset).
   */
  datatype Task = Task(
    id: Option<int>,
    text: string,
    priority: string,
    dueDate: Option<Timestamp>,
    completed: bool)

  /** The three values the priority selects offer. */
  predicate IsPriorityOption(p: string) {
    p == "high" || p == "medium" || p == "low"
  }

  /** JavaScript truthiness of a numeric identifier: null, undefined and 0 are falsy. */
  predicate IdIsTruthy(id: Option<int>) {
    id.Some? && id.value != 0
  }

  /** JavaScript `a || b` on two strings: the empty string is the only falsy string. */
  function StringOr(a: string, b: string): (r: string)
    ensures a != "" ==> r == a
    ensures a == "" ==> r == b
  {
    if a == "" then b else a
  }

  /** The task with its completion flag flipped, as `{ ...task, completed: !task.completed }`. */
  function Flip(t: Task): (r: Task)
    ensures r.completed != t.completed
    ensures r.id == t.id && r.text == t.text && r.priority == t.priority && r.dueDate == t.dueDate
  {
    t.(completed := !t.completed)
  }

  lemma FlipTwice(t: Task)
    ensures Flip(Flip(t)) == t
  {
  }

  /**
   * The characters `String.prototype.trim` removes: the WhiteSpace and LineTerminator
   * code points of section 12.2 and 12.3 of ECMA-262.
   */
  predicate IsJsWhitespace(c: char) {
    c == '\t' || c == '\n' || c == '\U{000B}' || c == '\U{000C}' || c == '\r' || c == ' '
    || c == '\U{00A0}' || c == '\U{1680}' || ('\U{2000}' <= c <= '\U{200A}')
    || c == '\U{2028}' || c == '\U{2029}' || c == '\U{202F}' || c == '\U{205F}'
    || c == '\U{3000}' || c == '\U{FEFF}'
  }

  /** Every character of `s` is whitespace (vacuously so for the empty string). */
  predicate AllWhitespace(s: string) {
    forall i :: 0 <= i < |s| ==> IsJsWhitespace(s[i])
  }

  /** `s` with its leading whitespace removed. */
  function TrimStart(s: string): (r: string)
    ensures |r| <= |s| && r == s[|s| - |r|..]
    ensures AllWhitespace(s[..|s| - |r|])
    ensures r != [] ==> !IsJsWhitespace(r[0])
  {
    if s != [] && IsJsWhitespace(s[0]) then
      var r := TrimStart(s[1..]);
      var n := |s| - |r|;
      assert AllWhitespace(s[..n]) by {
        forall i | 0 < i < n ensures IsJsWhitespace(s[i]) {
          assert s[i] == s[1..][..n - 1][i - 1];
        }
      }
      r
    else s
  }

  /** `s` with its trailing whitespace removed. */
  function TrimEnd(s: string): (r: string)
    ensures |r| <= |s| && r == s[..|r|]
    ensures AllWhitespace(s[|r|..])
    ensures r != [] ==> !IsJsWhitespace(r[|r| - 1])
  {
    if s != [] && IsJsWhitespace(s[|s| - 1]) then
      var r := TrimEnd(s[..|s| - 1]);
      assert AllWhitespace(s[|r|..]) by {
        forall i | |r| <= i < |s| - 1 ensures IsJsWhitespace(s[i]) {
          assert s[i] == s[..|s| - 1][|r|..][i - |r|];
        }
      }
      r
    else s
  }

  /**
   * `s.trim()`: an infix of `s`, starting where the leading whitespace ends, that
   * neither starts nor ends with whitespace (TrimDropsOnlyWhitespace says what is cut off).
   */
  function Trim(s: string): (r: string)
    ensures |r| <= |s|
    ensures var k := |s| - |TrimStart(s)|; k + |r| <= |s| && r == s[k..k + |r|]
    ensures r != [] ==> !IsJsWhitespace(r[0]) && !IsJsWhitespace(r[|r| - 1])
  {
    var t := TrimStart(s);
    var r := TrimEnd(t);
    PrefixOfSuffix(s, |s| - |t|, |r|);
    r
  }

  /** Taking `n` elements of the suffix from `k` is the infix `s[k..k + n]`. */
  lemma PrefixOfSuffix(s: string, k: nat, n: nat)
    requires k + n <= |s|
    ensures s[k..][..n] == s[k..k + n]
  {
  }

  /** What `trim` removes from either end is whitespace and nothing else. */
  lemma TrimDropsOnlyWhitespace(s: string)
    ensures var k := |s| - |TrimStart(s)|;
      && AllWhitespace(s[..k])
      && AllWhitespace(s[k + |Trim(s)|..])
  {
    var t := TrimStart(s);
    var k := |s| - |t|;
    var n := |Trim(s)|;
    assert s[k + n..] == t[n..];
  }

  /** The trimmed string is empty exactly when the input is all whitespace (or empty). */
  lemma TrimEmptyIff(s: string)
    ensures Trim(s) == [] <==> AllWhitespace(s)
  {
    var t := TrimStart(s);
    var k := |s| - |t|;
    if Trim(s) == [] {
      if t != [] {
        assert false;
      }
      assert s[..k] == s;
    } else {
      var r := Trim(s);
      assert s[k] == r[0];
    }
  }

  /** Trimming twice is trimming once. */
  lemma TrimIdempotent(s: string)
    ensures Trim(Trim(s)) == Trim(s)
  {
    var r := Trim(s);
    if r != [] {
      assert TrimStart(r) == r;
      assert TrimEnd(r) == r;
    }
  }
}
