/** What it means for names and texts to be the same whatever the case, letter by letter. */
module Names {
  import opened Headers
  import opened Options

  /** The same character, or the two cases of one of the 26 letters. */
  predicate SameLetter(a: char, b: char) {
    || a == b
    || ('A' <= a <= 'Z' && 'a' <= b <= 'z' && a as int - 'A' as int == b as int - 'a' as int)
    || ('a' <= a <= 'z' && 'A' <= b <= 'Z' && a as int - 'a' as int == b as int - 'A' as int)
  }

  predicate SameLetters(a: string, b: string) {
    |a| == |b| && forall i :: 0 <= i < |a| ==> SameLetter(a[i], b[i])
  }

  lemma LowerWhen(a: char, b: char)
    ensures Lower(a) == Lower(b) <==> SameLetter(a, b)
  {
  }

  lemma SameNameWhen(a: string, b: string)
    ensures SameName(a, b) <==> SameLetters(a, b)
  {
    hide Lower, SameLetter;
    var low, low' := Lowercase(a), Lowercase(b);
    if SameName(a, b) {
      forall i | 0 <= i < |a| ensures SameLetter(a[i], b[i]) {
        assert low[i] == low'[i];
        LowerWhen(a[i], b[i]);
      }
    }
    if SameLetters(a, b) {
      forall i | 0 <= i < |a| ensures low[i] == low'[i] {
        LowerWhen(a[i], b[i]);
      }
      assert low == low';
    }
  }

  predicate SameAt(text: string, value: string, i: nat) {
    i + |text| <= |value| && SameLetters(text, value[i..i + |text|])
  }

  /** The text stands somewhere in the value, whatever the case. */
  ghost predicate StandsIn(text: string, value: string) {
    exists i :: SameAt(text, value, i)
  }

  lemma LowercasePart(s: string, i: nat, j: nat)
    requires i <= j <= |s|
    ensures Lowercase(s)[i..j] == Lowercase(s[i..j])
  {
  }

  lemma MatchWhen(text: string, value: string, i: nat)
    ensures MatchesAt(Lowercase(text), Lowercase(value), i) <==> SameAt(text, value, i)
  {
    hide Lowercase, SameLetters;
    if i + |text| <= |value| {
      LowercasePart(value, i, i + |text|);
      SameNameWhen(text, value[i..i + |text|]);
    }
  }

  /** hlist_subcmp looks for the text in the first header of that name, and for nothing else. */
  lemma MentionsWhen(list: seq<Header>, key: string, text: string)
    ensures Mentions(list, key, text)
            <==> exists k | 0 <= k < |list| ::
                   && SameLetters(list[k].key, key) && (forall j :: 0 <= j < k ==> !SameLetters(list[j].key, key))
                   && StandsIn(text, list[k].value)
  {
    hide Lowercase, SameLetters, SameName;
    forall k | 0 <= k < |list| ensures SameName(list[k].key, key) <==> SameLetters(list[k].key, key) {
      SameNameWhen(list[k].key, key);
    }
    var k := Find(list, key);
    if k < |list| {
      OccursWhen(text, list[k].value);
    }
  }

  lemma OccursWhen(text: string, value: string)
    ensures Occurs(Lowercase(text), Lowercase(value)) <==> StandsIn(text, value)
  {
    hide MatchesAt, SameAt;
    forall i: nat
      ensures MatchesAt(Lowercase(text), Lowercase(value), i) <==> SameAt(text, value, i)
    {
      MatchWhen(text, value, i);
    }
    if StandsIn(text, value) {
      var i :| SameAt(text, value, i);
      FitsIn(text, value, i);
    }
  }

  lemma FitsIn(text: string, value: string, i: nat)
    requires SameAt(text, value, i)
    ensures i <= |Lowercase(value)|
  {
  }

  /** hlist_get gives the value of the first header of that name. */
  lemma GetWhen(list: seq<Header>, key: string, value: string)
    ensures Get(list, key) == Some(value)
            <==> exists k | 0 <= k < |list| ::
                   && SameLetters(list[k].key, key) && (forall j :: 0 <= j < k ==> !SameLetters(list[j].key, key))
                   && list[k].value == value
  {
    hide SameLetters, SameName;
    forall k | 0 <= k < |list| ensures SameName(list[k].key, key) <==> SameLetters(list[k].key, key) {
      SameNameWhen(list[k].key, key);
    }
    var k := Find(list, key);
    assert k < |list| ==> SameLetters(list[k].key, key);
  }
}
