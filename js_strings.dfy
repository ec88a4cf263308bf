/** The JavaScript string operations the server relies on: truthiness and
    `||` on an optional string, `String.prototype.includes` and
    `String.prototype.toLowerCase`. */
module JsStrings {
  import opened Wrappers

  /** JavaScript truthiness of a value that is a string or `undefined`:
      both `undefined` and `""` are falsy. */
  predicate Truthy(v: Option<string>) {
    v.Some? && v.value != ""
  }

  /** `v || fallback` for a value that is a string or `undefined`. */
  function OrElse(v: Option<string>, fallback: string): (r: string)
    ensures Truthy(v) ==> r == v.value
    ensures !Truthy(v) ==> r == fallback
  {
    if Truthy(v) then v.value else fallback
  }

  predicate StartsWith(s: string, prefix: string) {
    |prefix| <= |s| && s[..|prefix|] == prefix
  }

  predicate EndsWith(s: string, suffix: string) {
    |suffix| <= |s| && s[|s| - |suffix|..] == suffix
  }

  /** `s.includes(sub)`, trying the start positions from left to right. */
  predicate Includes(s: string, sub: string)
    ensures Includes(s, sub) ==> |sub| <= |s|
    decreases |s|
  {
    StartsWith(s, sub) || (s != [] && Includes(s[1..], sub))
  }

  /** `sub` occurs in `s` starting at position `i`. */
  predicate OccursAt(s: string, sub: string, i: int) {
    0 <= i && i + |sub| <= |s| && s[i..i + |sub|] == sub
  }

  /** The left-to-right scan finds `sub` exactly when it occurs somewhere. */
  lemma {:induction false} IncludesIffOccurs(s: string, sub: string)
    ensures Includes(s, sub) <==> exists i :: OccursAt(s, sub, i)
    decreases |s|
  {
    if s != [] {
      IncludesIffOccurs(s[1..], sub);
      if StartsWith(s, sub) {
        assert s[0..|sub|] == s[..|sub|];
        assert OccursAt(s, sub, 0);
      }
      if Includes(s[1..], sub) {
        var i :| OccursAt(s[1..], sub, i);
        assert s[1..][i..i + |sub|] == s[i + 1..i + 1 + |sub|];
        assert OccursAt(s, sub, i + 1);
      }
      if i :| OccursAt(s, sub, i) {
        if i > 0 {
          assert s[1..][i - 1..i - 1 + |sub|] == s[i..i + |sub|];
          assert OccursAt(s[1..], sub, i - 1);
          assert Includes(s[1..], sub);
        } else {
          assert s[..|sub|] == s[0..|sub|];
        }
        assert Includes(s, sub);
      }
    } else if sub == [] {
      assert OccursAt(s, sub, 0);
    }
  }

  /** A string lacking one of the characters of `sub` does not include `sub`. */
  lemma {:induction false} MissingCharExcludes(s: string, sub: string, k: nat)
    requires k < |sub|
    requires forall i | 0 <= i < |s| :: s[i] != sub[k]
    ensures !Includes(s, sub)
    decreases |s|
  {
    if |sub| <= |s| {
      assert s[..|sub|][k] != sub[k];
    }
    if s != [] {
      MissingCharExcludes(s[1..], sub, k);
    }
  }

  predicate IsUpperAscii(c: char) {
    'A' <= c <= 'Z'
  }

  /** The lower-case form of one character; only ASCII letters are mapped. */
  function LowerChar(c: char): (r: char)
    ensures !IsUpperAscii(r)
    ensures IsUpperAscii(c) ==> r as int == c as int + 32
    ensures !IsUpperAscii(c) ==> r == c
  {
    if IsUpperAscii(c) then (c as int + 32) as char else c
  }

  /** `s.toLowerCase()`, character by character. */
  function ToLowerCase(s: string): (r: string)
    ensures |r| == |s|
    ensures forall i | 0 <= i < |s| :: r[i] == LowerChar(s[i])
  {
    if s == [] then [] else [LowerChar(s[0])] + ToLowerCase(s[1..])
  }

  /** Lower-casing leaves no upper-case letter and changes nothing a second time. */
  lemma ToLowerCaseIdempotent(s: string)
    ensures forall i | 0 <= i < |s| :: !IsUpperAscii(ToLowerCase(s)[i])
    ensures ToLowerCase(ToLowerCase(s)) == ToLowerCase(s)
  {
  }
}
