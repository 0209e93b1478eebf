/**
 Which mechanisms an identity lets a client use: a request is a mechanism, or a list of
 mechanisms separated by spaces.
 */
module Mechanisms {

  type MethodMap = map<string, seq<string>>

  // -------------------------------------------------------------------- Splitting

  function WordEnd(s: string): (i: nat)
    ensures i <= |s|
    ensures forall k :: 0 <= k < i ==> s[k] != ' '
    ensures i < |s| ==> s[i] == ' '
  {
    if s == "" || s[0] == ' ' then 0 else 1 + WordEnd(s[1..])
  }

  /** The words of `s`, without the empty ones. */
  function Words(s: string): seq<string>
    decreases |s|
  {
    if s == "" then []
    else
      var i := WordEnd(s);
      (if i == 0 then [] else [s[..i]]) + (if i < |s| then Words(s[i + 1..]) else [])
  }

  function Join(words: seq<string>): string {
    if words == [] then ""
    else if |words| == 1 then words[0]
    else words[0] + " " + Join(words[1..])
  }

  predicate IsWord(w: string) {
    w != "" && ' ' !in w
  }

  lemma FirstIsWord(s: string)
    ensures WordEnd(s) > 0 ==> IsWord(s[..WordEnd(s)])
  {
  }

  lemma {:induction false} WordsAreWords(s: string)
    ensures forall w <- Words(s) :: IsWord(w)
    decreases |s|
  {
    hide IsWord;
    if s != "" {
      var i := WordEnd(s);
      FirstIsWord(s);
      if i < |s| {
        WordsAreWords(s[i + 1..]);
      }
    }
  }

  lemma WordEndOf(w: string, s: string)
    requires IsWord(w) && w <= s && (|s| > |w| ==> s[|w|] == ' ')
    ensures WordEnd(s) == |w|
  {
    assert forall k :: 0 <= k < |w| ==> s[k] == w[k] && w[k] in w;
  }

  lemma WordsOfOne(w: string)
    requires IsWord(w)
    ensures Words(w) == [w]
  {
    WordEndOf(w, w);
    assert w[..|w|] == w;
  }

  lemma FirstWord(w: string, rest: string)
    requires IsWord(w)
    ensures Words(w + " " + rest) == [w] + Words(rest)
  {
    var s := w + " " + rest;
    WordEndOf(w, s);
    assert s[..|w|] == w && s[|w| + 1..] == rest;
  }

  /** Splitting undoes joining. */
  lemma {:induction false} WordsOfJoin(words: seq<string>)
    requires forall w <- words :: IsWord(w)
    ensures Words(Join(words)) == words
    decreases |words|
  {
    if |words| == 1 {
      WordsOfOne(words[0]);
    } else if words != [] {
      assert words[0] in words && forall v <- words[1..] :: v in words;
      WordsOfJoin(words[1..]);
      FirstWord(words[0], Join(words[1..]));
      hide Words, IsWord;
      assert words == [words[0]] + words[1..];
    }
  }

  // -------------------------------------------------------------------- The check

  function Listed(words: seq<string>, mechs: seq<string>): seq<string> {
    if words == [] then []
    else
      var w := words[|words| - 1];
      Listed(words[..|words| - 1], mechs) + (if w in mechs then [w] else [])
  }

  /** Whether the request is accepted, and the out-parameter afterwards. */
  function Check(methods: MethodMap, authMethod: string, mechanism: string, initial: string): (bool, string) {
    if methods == map[] then (true, initial)
    else if authMethod !in methods then (false, initial)
    else
      var mechs := methods[authMethod];
      if mechs == [] then (true, initial)
      else if mechanism in mechs then (true, mechanism)
      else
        var words := Words(mechanism);
        if |words| <= 1 then (false, initial)
        else
          var allowed := Listed(words, mechs);
          if allowed == [] then (false, initial) else (true, Join(allowed))
  }

  predicate Unrestricted(methods: MethodMap, authMethod: string) {
    methods == map[] || (authMethod in methods && methods[authMethod] == [])
  }

  // ------------------------------------------------------------------- Properties

  /** `a` is `b` with some elements left out. */
  predicate IsSubsequence<T(==)>(a: seq<T>, b: seq<T>)
    decreases |b|
  {
    if a == [] then true
    else if b == [] then false
    else if a[|a| - 1] == b[|b| - 1] then IsSubsequence(a[..|a| - 1], b[..|b| - 1])
    else IsSubsequence(a, b[..|b| - 1])
  }

  /** `kept` is the words of `words` that are listed: all of them, as often, in order, and no other. */
  ghost predicate ExactlyTheListed(kept: seq<string>, words: seq<string>, mechs: seq<string>) {
    && IsSubsequence(kept, words)
    && forall w :: multiset(kept)[w] == if w in mechs then multiset(words)[w] else 0
  }

  lemma {:induction false} ListedCounts(words: seq<string>, mechs: seq<string>, w: string)
    ensures multiset(Listed(words, mechs))[w] == if w in mechs then multiset(words)[w] else 0
    decreases |words|
  {
    if words != [] {
      var front, last := words[..|words| - 1], words[|words| - 1];
      ListedCounts(front, mechs, w);
      assert words == front + [last];
      assert multiset(words)[w] == multiset(front)[w] + multiset([last])[w];
    }
  }

  lemma {:induction false} ListedIsSubsequence(words: seq<string>, mechs: seq<string>)
    ensures IsSubsequence(Listed(words, mechs), words)
    ensures forall w <- Listed(words, mechs) :: w in mechs
    decreases |words|
  {
    if words != [] {
      var front, last := words[..|words| - 1], words[|words| - 1];
      var kept, before := Listed(words, mechs), Listed(front, mechs);
      ListedIsSubsequence(front, mechs);
      if last in mechs {
        assert kept[..|kept| - 1] == before;
      } else {
        assert kept == before;
        assert kept != [] ==> kept[|kept| - 1] in kept;
      }
    }
  }

  lemma ListedIsExact(words: seq<string>, mechs: seq<string>)
    ensures ExactlyTheListed(Listed(words, mechs), words, mechs)
  {
    ListedIsSubsequence(words, mechs);
    forall w {
      ListedCounts(words, mechs, w);
    }
  }

  lemma ListedWords(words: seq<string>, mechs: seq<string>)
    ensures forall w :: w in Listed(words, mechs) <==> w in words && w in mechs
  {
    ListedIsExact(words, mechs);
    forall w ensures w in Listed(words, mechs) <==> w in words && w in mechs {
      assert w in Listed(words, mechs) <==> multiset(Listed(words, mechs))[w] > 0;
      assert w in words <==> multiset(words)[w] > 0;
    }
  }

  lemma {:induction false} AllListed(words: seq<string>, mechs: seq<string>)
    requires forall w <- words :: w in mechs
    ensures Listed(words, mechs) == words
    decreases |words|
  {
    if words != [] {
      var front, last := words[..|words| - 1], words[|words| - 1];
      assert last in words;
      assert words == front + [last];
      assert forall w <- front :: w in words;
      AllListed(front, mechs);
    }
  }

  /** When a request is accepted, for all identities and requests. */
  lemma AcceptedExactly(methods: MethodMap, authMethod: string, mechanism: string, initial: string)
    ensures Check(methods, authMethod, mechanism, initial).0 <==>
      || Unrestricted(methods, authMethod)
      || (authMethod in methods
          && (mechanism in methods[authMethod]
              || (|Words(mechanism)| > 1 && exists w <- Words(mechanism) :: w in methods[authMethod])))
  {
    if authMethod in methods {
      ListedWords(Words(mechanism), methods[authMethod]);
      var kept := Listed(Words(mechanism), methods[authMethod]);
      assert kept != [] ==> kept[0] in kept;
    }
  }

  /** What an accepted request gives: the request if the identity does not restrict it or lists
      it, and otherwise exactly the listed words of the request, joined by single spaces. */
  lemma {:induction false} GrantedMechanism(methods: MethodMap, authMethod: string, mechanism: string)
    requires Check(methods, authMethod, mechanism, mechanism).0
    ensures var granted := Check(methods, authMethod, mechanism, mechanism).1;
      if Unrestricted(methods, authMethod) || mechanism in methods[authMethod] then granted == mechanism
      else
        && granted == Join(Words(granted)) && Words(granted) != []
        && ExactlyTheListed(Words(granted), Words(mechanism), methods[authMethod])
  {
    if !Unrestricted(methods, authMethod) && mechanism !in methods[authMethod] {
      var mechs, words := methods[authMethod], Words(mechanism);
      WordsAreWords(mechanism);
      ListedWords(words, mechs);
      ListedIsExact(words, mechs);
      WordsOfJoin(Listed(words, mechs));
    }
  }

  /** A mechanism that was granted is granted again, as it is. */
  lemma GrantedStaysGranted(methods: MethodMap, authMethod: string, mechanism: string)
    requires Check(methods, authMethod, mechanism, mechanism).0
    ensures var granted := Check(methods, authMethod, mechanism, mechanism).1;
      Check(methods, authMethod, granted, granted) == (true, granted)
  {
    if !Unrestricted(methods, authMethod) && mechanism !in methods[authMethod] {
      var mechs, words := methods[authMethod], Words(mechanism);
      var kept := Listed(words, mechs);
      WordsAreWords(mechanism);
      ListedWords(words, mechs);
      WordsOfJoin(kept);
      AllListed(kept, mechs);
      assert |kept| == 1 ==> Join(kept) == kept[0] && kept[0] in kept;
    }
  }

  /** A refused request leaves the out-parameter alone. */
  lemma RefusedKeepsParameter(methods: MethodMap, authMethod: string, mechanism: string, initial: string)
    requires !Check(methods, authMethod, mechanism, initial).0
    ensures Check(methods, authMethod, mechanism, initial).1 == initial
    ensures !Unrestricted(methods, authMethod)
  {
  }

  /** One listed word with a space beside it is refused, though two such words are not. */
  lemma PaddedWordIsRefused(methods: MethodMap, authMethod: string, word: string)
    requires IsWord(word) && authMethod in methods && word in methods[authMethod]
    requires word + " " !in methods[authMethod]
    ensures !Check(methods, authMethod, word + " ", word + " ").0
    ensures Check(methods, authMethod, word + " " + word, word + " " + word) == (true, word + " " + word)
  {
    var padded, twice := word + " ", word + " " + word;
    WordsOfPadded(word);
    assert Join([word, word]) == twice;
    WordsOfJoin([word, word]);
    AllListed([word, word], methods[authMethod]);
    hide Words, Listed, Join;
    assert |[word]| == 1;
  }

  lemma WordsOfPadded(word: string)
    requires IsWord(word)
    ensures Words(word + " ") == [word]
  {
    FirstWord(word, "");
    assert word + " " + "" == word + " ";
  }

  // ------------------------------------------------------------------ The identity

  class SignonIdentityInfo {
    var methods: MethodMap

    constructor (methods: MethodMap)
      ensures this.methods == methods
    {
      this.methods := methods;
    }

    /** The out-parameter `allowedMechanism` starts as `initial`. */
    method CheckMethodAndMechanism(authMethod: string, mechanism: string, initial: string)
      returns (ok: bool, allowedMechanism: string)
      ensures (ok, allowedMechanism) == Check(methods, authMethod, mechanism, initial)
      ensures ok && initial == mechanism ==>
                Check(methods, authMethod, allowedMechanism, allowedMechanism) == (true, allowedMechanism)
    {
      if Check(methods, authMethod, mechanism, mechanism).0 {
        GrantedStaysGranted(methods, authMethod, mechanism);
      }
      allowedMechanism := initial;
      if methods == map[] {
        return true, allowedMechanism;
      }
      if authMethod !in methods {
        return false, allowedMechanism;
      }
      var mechs := methods[authMethod];
      if mechs == [] {
        return true, allowedMechanism;
      }
      if mechanism in mechs {
        return true, mechanism;
      }
      var mechanisms := Words(mechanism);
      if |mechanisms| <= 1 {
        return false, allowedMechanism;
      }
      var allowedMechanisms := [];
      for i := 0 to |mechanisms|
        invariant allowedMechanisms == Listed(mechanisms[..i], mechs)
      {
        assert mechanisms[..i + 1][..i] == mechanisms[..i];
        if mechanisms[i] in mechs {
          allowedMechanisms := allowedMechanisms + [mechanisms[i]];
        }
      }
      assert mechanisms[..|mechanisms|] == mechanisms;
      if allowedMechanisms == [] {
        return false, allowedMechanism;
      }
      return true, Join(allowedMechanisms);
    }
  }
}
