/** Which header a name finds (section 4.2 of RFC 2616): names are compared without regard to case. */
module Names {
  import opened Text
  import opened Message

  /** The same character, or the two cases of one letter. */
  predicate SameLetter(a: char, b: char) {
    || a == b
    || ('A' <= a <= 'Z' && b as int == a as int + 32)
    || ('A' <= b <= 'Z' && a as int == b as int + 32)
  }

  predicate SameLetters(a: string, b: string) {
    |a| == |b| && forall k :: 0 <= k < |a| ==> SameLetter(a[k], b[k])
  }

  /** `a` and `b` name the same header: after leading spaces they are spelled with the same letters. */
  predicate SameName(a: string, b: string) {
    SameLetters(StripSpaces(a), StripSpaces(b))
  }

  /** The comparison of the code is that one. */
  lemma NamesMatch(a: string, b: string)
    ensures EquivalentStrings(a, b) <==> SameName(a, b)
  {
    hide StripSpaces;
    var x, y := StripSpaces(a), StripSpaces(b);
    forall c: char, d: char
      ensures ToLower(c) == ToLower(d) <==> SameLetter(c, d)
    {
      LettersMatch(c, d);
    }
  }

  lemma LettersMatch(a: char, b: char)
    ensures ToLower(a) == ToLower(b) <==> SameLetter(a, b)
  {
  }

  /** Header `i` is the first with that name. */
  ghost predicate First(headers: seq<Header>, name: string, i: nat) {
    && i < |headers| && SameName(headers[i].key, name)
    && forall j :: 0 <= j < i ==> !SameName(headers[j].key, name)
  }

  ghost predicate Present(headers: seq<Header>, name: string) {
    exists i :: 0 <= i < |headers| && SameName(headers[i].key, name)
  }

  /** Look-up finds the first header with that name. */
  lemma {:induction false} LookupFirst(headers: seq<Header>, name: string)
    ensures HeaderValue(headers, name).Some? <==> Present(headers, name)
    ensures forall i: nat :: First(headers, name, i) ==> HeaderValue(headers, name) == Some(headers[i].value)
  {
    hide EquivalentStrings, SameName;
    if headers != [] {
      NamesMatch(headers[0].key, name);
      var rest := headers[1..];
      LookupFirst(rest, name);
      if !SameName(headers[0].key, name) {
        assert forall i :: 0 < i < |headers| ==> headers[i] == rest[i - 1];
        forall i: nat | First(headers, name, i)
          ensures HeaderValue(headers, name) == Some(headers[i].value)
        {
          assert First(rest, name, i - 1);
        }
        assert Present(headers, name) <==> Present(rest, name) by {
          if Present(rest, name) {
            var i :| 0 <= i < |rest| && SameName(rest[i].key, name);
            assert headers[i + 1] == rest[i];
          }
        }
      }
    }
  }

  lemma FirstBounds(headers: seq<Header>, name: string, i: nat)
    requires First(headers, name, i)
    ensures i < |headers| && Present(headers, name)
  {
  }

  /** A name that is there is there a first time. */
  lemma {:induction false} FirstExists(headers: seq<Header>, name: string) returns (i: nat)
    requires Present(headers, name)
    ensures First(headers, name, i)
    decreases |headers|
  {
    hide SameName;
    if SameName(headers[0].key, name) {
      i := 0;
    } else {
      var k :| 0 <= k < |headers| && SameName(headers[k].key, name);
      assert headers[1..][k - 1] == headers[k];
      i := FirstExists(headers[1..], name);
      assert forall j :: 0 < j < |headers| ==> headers[j] == headers[1..][j - 1];
      i := i + 1;
    }
  }

  /** Spaces in front make no difference, so a name without any is found under every spelling. */
  lemma SpelledAnyhow(key: string, name: string)
    requires SameLetters(key, name) && name != "" && name[0] != ' '
    ensures SameName(key, name)
  {
    assert SameLetter(key[0], name[0]);
  }
}
