/** White space around texts, and the names a player may enter. */
module Text {
  import opened Prelude

  predicate IsSpace(c: char) {
    var u := c as int;
    || u == 32 || 9 <= u <= 13 || 28 <= u <= 31 || u == 0x85 || u == 0xA0 || u == 0x1680
    || 0x2000 <= u <= 0x200A || u == 0x2028 || u == 0x2029 || u == 0x202F || u == 0x205F || u == 0x3000
  }

  function StripLeft(s: string): (r: string)
    ensures r != [] ==> !IsSpace(r[0])
    ensures forall c :: c in r ==> c in s
  {
    if s != [] && IsSpace(s[0]) then StripLeft(s[1..]) else s
  }

  function StripRight(s: string): (r: string)
    ensures r <= s
    ensures r != [] ==> !IsSpace(r[|r| - 1])
  {
    if s != [] && IsSpace(s[|s| - 1]) then StripRight(s[..|s| - 1]) else s
  }

  function Strip(s: string): string { StripRight(StripLeft(s)) }

  /** Stripping once is enough. */
  lemma {:induction false} StripIdempotent(s: string)
    ensures Strip(Strip(s)) == Strip(s)
  {
    var a, r := StripLeft(s), Strip(s);
    if r != [] {
      assert r[0] == a[0];
      assert StripLeft(r) == r;
    }
  }

  /** The text within the outer white space. */
  ghost predicate Within(s: string, name: string, i: nat) {
    && i + |name| <= |s| && name == s[i..i + |name|]
    && (forall k :: 0 <= k < i || i + |name| <= k < |s| ==> IsSpace(s[k]))
    && (name != [] ==> !IsSpace(name[0]) && !IsSpace(name[|name| - 1]))
  }

  lemma {:induction false} LeftOf(s: string) returns (i: nat)
    ensures i <= |s| && StripLeft(s) == s[i..] && forall k :: 0 <= k < i ==> IsSpace(s[k])
  {
    i := 0;
    if s != [] && IsSpace(s[0]) {
      var rest := LeftOf(s[1..]);
      i := rest + 1;
      assert forall k :: 1 <= k < i ==> s[k] == s[1..][k - 1];
    }
  }

  lemma {:induction false} RightOf(s: string)
    ensures forall k :: |StripRight(s)| <= k < |s| ==> IsSpace(s[k])
  {
    if s != [] && IsSpace(s[|s| - 1]) {
      RightOf(s[..|s| - 1]);
      assert forall k :: 0 <= k < |s| - 1 ==> s[k] == s[..|s| - 1][k];
    }
  }

  /** Stripping leaves exactly that text. */
  lemma {:induction false} StripIs(s: string, name: string)
    ensures Strip(s) == name <==> exists i :: Within(s, name, i)
  {
    var i := LeftOf(s);
    var left, r := StripLeft(s), Strip(s);
    RightOf(left);
    assert forall k :: 0 <= k < |left| ==> left[k] == s[i + k];
    assert Within(s, r, i) by {
      assert r == s[i..i + |r|];
      assert r != [] ==> r[0] == left[0];
      forall k | i + |r| <= k < |s| ensures IsSpace(s[k]) {
        assert left[k - i] == s[k];
      }
    }
    forall j | Within(s, name, j) ensures name == r {
      SameWithin(s, name, j, r, i);
    }
  }

  lemma {:induction false} SameWithin(s: string, a: string, i: nat, b: string, j: nat)
    requires Within(s, a, i) && Within(s, b, j)
    ensures a == b
  {
    assert a != [] ==> s[i] == a[0] && s[i + |a| - 1] == a[|a| - 1];
    assert b != [] ==> s[j] == b[0] && s[j + |b| - 1] == b[|b| - 1];
  }

  datatype EntryError = BadName | BadScope

  predicate NameChar(c: char) {
    'A' <= c <= 'Z' || 'a' <= c <= 'z' || '0' <= c <= '9' || c == ' ' || c == '_' || c == '-'
  }

  /** A player's name without outer white space, or an error. */
  function PlayerName(name: string): (r: Result<string, EntryError>)
    ensures r.Err? ==> r.error == BadName
  {
    var normalized := Strip(name);
    if 1 <= |normalized| <= 12 && forall c :: c in normalized ==> NameChar(c) then Ok(normalized) else Err(BadName)
  }

  /** The identifier of a map or course without outer white space, or an error. */
  function ScopeId(value: string): Result<string, EntryError> {
    if Strip(value) == [] then Err(BadScope) else Ok(Strip(value))
  }

  /**
   * A name is accepted when 1 to 12 letters, digits, blanks, underscores and hyphens are left within the white space.
   */
  lemma {:induction false} NameAccepted(text: string, name: string)
    ensures PlayerName(text) == Ok(name) <==>
            && (exists i :: Within(text, name, i)) && 1 <= |name| <= 12
            && forall c :: c in name ==>
                 c in " _-" || '0' <= c <= '9' || 'a' <= c <= 'z' || 'A' <= c <= 'Z'
  {
    StripIs(text, name);
  }

  /** An identifier is accepted when anything is left. */
  lemma {:induction false} IdAccepted(text: string, id: string)
    ensures ScopeId(text) == Ok(id) <==> (exists i :: Within(text, id, i)) && id != ""
    ensures ScopeId(text).Err? <==> forall c :: c in text ==> IsSpace(c)
  {
    StripIs(text, id);
    StripIs(text, "");
    if ScopeId(text).Err? {
      assert exists i :: Within(text, "", i);
    } else {
      StripIs(text, Strip(text));
      var i: nat :| Within(text, Strip(text), i);
      assert Strip(text)[0] == text[i];
    }
    if forall c :: c in text ==> IsSpace(c) {
      assert Within(text, "", |text|);
    }
  }

  /** What was recorded under an accepted name or identifier is accepted, and the same, when it is read back. */
  lemma {:induction false} AcceptedReadsBack(text: string)
    ensures PlayerName(text).Ok? ==> PlayerName(PlayerName(text).value) == PlayerName(text)
    ensures ScopeId(text).Ok? ==> ScopeId(ScopeId(text).value) == ScopeId(text)
  {
    StripIdempotent(text);
  }
}
