/** The few text operations the order code uses: the ASCII part of Python's
    `str.upper`, the substring test `p in s`, the head of `s.split(p)`, and
    `s.replace(p, "")`. Strings are `seq<char>`. */
module Strings {

  datatype Option<T> = None | Some(value: T)

  /** Upper-cases an ASCII letter and leaves every other character alone. */
  function UpperChar(c: char): char
  {
    if 'a' <= c <= 'z' then (c as int - 32) as char else c
  }

  /** No ASCII lower-case letter occurs in `s`. */
  predicate IsUpper(s: string)
  {
    forall c :: c in s ==> !('a' <= c <= 'z')
  }

  /** `s.upper()`: upper-cased text of the same length; text that is already
      upper-case is returned unchanged. */
  function Upper(s: string): (r: string)
    ensures |r| == |s|
    ensures forall i :: 0 <= i < |s| ==> r[i] == UpperChar(s[i])
    ensures IsUpper(r)
    ensures IsUpper(s) ==> r == s
  {
    assert forall i :: 0 <= i < |s| ==> s[i] in s;
    seq(|s|, i requires 0 <= i < |s| => UpperChar(s[i]))
  }

  /** Upper-casing from the front, one character at a time: a reference
      definition that Dafny evaluates directly on literal text. */
  function UpperEach(s: string): string
    decreases |s|
  {
    if s == [] then [] else [UpperChar(s[0])] + UpperEach(s[1..])
  }

  /** `Upper` agrees with the character-at-a-time reference definition. */
  lemma {:induction false} UpperIsUpperEach(s: string)
    ensures Upper(s) == UpperEach(s)
    decreases |s|
  {
    if s != [] {
      UpperIsUpperEach(s[1..]);
      assert Upper(s) == [UpperChar(s[0])] + Upper(s[1..]);
    }
  }

  /** `p` occurs in `s` starting at index `i`. */
  predicate OccursAt(s: string, i: int, p: string)
  {
    0 <= i && i + |p| <= |s| && s[i..i + |p|] == p
  }

  /** The first index `>= i` at which `p` occurs in `s`, if any. */
  function FindFrom(s: string, p: string, i: nat): (r: Option<nat>)
    requires i <= |s|
    ensures r.Some? ==> i <= r.value <= |s| && OccursAt(s, r.value, p)
    ensures forall j :: i <= j <= |s| && (r.None? || j < r.value) ==> !OccursAt(s, j, p)
    decreases |s| - i
  {
    if OccursAt(s, i, p) then Some(i)
    else if i == |s| then None
    else FindFrom(s, p, i + 1)
  }

  /** The first index at which `p` occurs in `s` (Python's `s.find(p)`). */
  function Find(s: string, p: string): Option<nat>
  {
    FindFrom(s, p, 0)
  }

  /** Python's `p in s`. */
  predicate Contains(s: string, p: string)
  {
    Find(s, p).Some?
  }

  /** An occurrence that no earlier occurrence precedes is the one `Find` reports. */
  lemma FindIsFirst(s: string, p: string, k: int)
    requires OccursAt(s, k, p)
    requires forall j :: 0 <= j < k ==> !OccursAt(s, j, p)
    ensures Find(s, p) == Some(k)
  {
    var r := FindFrom(s, p, 0);
    if r.Some? {
      assert !(k < r.value);
      assert !(r.value < k);
    }
  }

  /** `s.split(p)[0]`: the text before the first occurrence of `p`, or all of
      `s` when `p` does not occur. */
  function Before(s: string, p: string): (r: string)
    ensures r <= s
    ensures Contains(s, p) ==> OccursAt(s, |r|, p)
    ensures forall j :: 0 <= j <= |r| && (Contains(s, p) ==> j < |r|) ==> !OccursAt(s, j, p)
    ensures !Contains(s, p) ==> r == s
  {
    match Find(s, p)
    case Some(i) => s[..i]
    case None => s
  }

  /** `s.replace(p, "")` for a non-empty `p`: a left-to-right scan that drops
      each non-overlapping occurrence of `p`. Text without `p` is unchanged. */
  function DeleteAll(s: string, p: string): (r: string)
    requires p != []
    ensures |r| <= |s|
    ensures (forall j :: 0 <= j <= |s| ==> !OccursAt(s, j, p)) ==> r == s
    decreases |s|
  {
    if s == [] then []
    else if OccursAt(s, 0, p) then DeleteAll(s[|p|..], p)
    else
      var rest := DeleteAll(s[1..], p);
      assert forall j :: 0 <= j <= |s| - 1 && OccursAt(s[1..], j, p) ==> OccursAt(s, j + 1, p) by {
        forall j | 0 <= j <= |s| - 1 && OccursAt(s[1..], j, p)
          ensures OccursAt(s, j + 1, p)
        {
          assert s[1..][j..j + |p|] == s[j + 1..j + 1 + |p|];
        }
      }
      [s[0]] + rest
  }

  /** When the only occurrence of `p` in `x + p` is the appended one,
      deleting every `p` gives back `x`. */
  lemma {:induction false} DeleteAppended(x: string, p: string)
    requires p != []
    requires forall j :: 0 <= j < |x| ==> !OccursAt(x + p, j, p)
    ensures DeleteAll(x + p, p) == x
  {
    if x == [] {
      assert x + p == p;
      assert OccursAt(p, 0, p);
      assert p[|p|..] == [];
    } else {
      assert !OccursAt(x + p, 0, p);
      assert (x + p)[1..] == x[1..] + p;
      forall j | 0 <= j < |x[1..]|
        ensures !OccursAt(x[1..] + p, j, p)
      {
        assert !OccursAt(x + p, j + 1, p);
        assert (x[1..] + p)[j..j + |p|] == (x + p)[j + 1..j + 1 + |p|];
      }
      DeleteAppended(x[1..], p);
      assert [x[0]] + x[1..] == x;
    }
  }
}
