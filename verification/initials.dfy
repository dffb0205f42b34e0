/** Initials for avatar fallbacks: the first character of every space-separated
    word, upper-cased. The dashboard avatar (src/components/dashboard/UserAvatar.tsx)
    shows them all; the settings avatar (src/components/settings/ProfileForm.tsx)
    shows at most two, and 'U' for a user without a name. An empty word, from
    repeated or outer spaces, has no first character and contributes nothing. */
module Initials {
  import opened Wrappers
  import opened Domain
  import opened Text

  /** The first characters of the non-empty words, in order. */
  function FirstChars(words: seq<string>): (r: string)
    ensures |r| <= |words|
    ensures |r| == |NonEmpty(words)|
    ensures forall i :: 0 <= i < |r| ==> r[i] == NonEmpty(words)[i][0]
  {
    if |words| == 0 then ""
    else if |words[0]| == 0 then FirstChars(words[1..])
    else [words[0][0]] + FirstChars(words[1..])
  }

  /** The non-empty words, in order. */
  function NonEmpty(words: seq<string>): (r: seq<string>)
    ensures |r| <= |words|
    ensures forall i :: 0 <= i < |r| ==> |r[i]| > 0
  {
    if |words| == 0 then []
    else if |words[0]| == 0 then NonEmpty(words[1..])
    else [words[0]] + NonEmpty(words[1..])
  }

  /** `getInitials` of the dashboard avatar: one upper-cased letter per non-empty
      word, so never more letters than space-separated parts. */
  function Initials(name: string): (r: string)
    ensures |r| <= |Split(name, ' ')|
    ensures |r| <= Occurrences(name, ' ') + 1
    ensures |r| == |FirstChars(Split(name, ' '))|
    ensures forall i :: 0 <= i < |r| ==> r[i] == UpperChar(FirstChars(Split(name, ' '))[i])
  {
    SplitCount(name, ' ');
    ToUpper(FirstChars(Split(name, ' ')))
  }

  /** For words joined by single spaces, the initials are the words' first letters. */
  lemma InitialsOfWords(words: seq<string>)
    requires |words| >= 1
    requires forall i :: 0 <= i < |words| ==> ' ' !in words[i]
    ensures Initials(Join(words, ' ')) == ToUpper(FirstChars(words))
  {
    SplitJoin(words, ' ');
  }

  /** Extra spaces change nothing: an empty word adds no letter. */
  lemma EmptyWordsIgnored(before: seq<string>, after: seq<string>)
    ensures FirstChars(before + [""] + after) == FirstChars(before + after)
  {
    FirstCharsAppend(before, [""] + after);
    FirstCharsAppend(before, after);
    assert before + [""] + after == before + ([""] + after);
    assert ([""] + after)[1..] == after;
  }

  lemma {:induction false} FirstCharsAppend(a: seq<string>, b: seq<string>)
    ensures FirstChars(a + b) == FirstChars(a) + FirstChars(b)
    decreases |a|
  {
    if |a| > 0 {
      FirstCharsAppend(a[1..], b);
      assert (a + b)[1..] == a[1..] + b;
    } else {
      assert a + b == b;
    }
  }

  lemma JohnDoe()
    ensures Initials("John Doe") == "JD"
  {
    assert "John Doe" == Join(["John", "Doe"], ' ');
    InitialsOfWords(["John", "Doe"]);
    assert FirstChars(["John", "Doe"]) == "JD";
  }

  lemma MaryAnnLee()
    ensures Initials("Mary Ann Lee") == "MAL"
  {
    MaryAnnLeeWords();
    InitialsOfWords(["Mary", "Ann", "Lee"]);
    MaryAnnLeeFirstChars();
    assert ToUpper("MAL") == "MAL";
  }

  lemma MaryAnnLeeWords()
    ensures "Mary Ann Lee" == Join(["Mary", "Ann", "Lee"], ' ')
  {
    var w := ["Mary", "Ann", "Lee"];
    assert w[1..] == ["Ann", "Lee"];
    assert Join(["Ann", "Lee"], ' ') == "Ann Lee";
  }

  lemma MaryAnnLeeFirstChars()
    ensures FirstChars(["Mary", "Ann", "Lee"]) == "MAL"
  {
    var w := ["Mary", "Ann", "Lee"];
    assert w[1..] == ["Ann", "Lee"];
    assert FirstChars(["Ann", "Lee"]) == "AL";
  }

  /** `getInitials` of the settings avatar: the first two of those letters. */
  function ShortInitials(name: string): (r: string)
    ensures |r| <= 2
    ensures |r| == if |Initials(name)| < 2 then |Initials(name)| else 2
    ensures r == Initials(name)[..|r|]
  {
    var all := Initials(name);
    if |all| < 2 then all else all[..2]
  }

  lemma MaryAnnLeeShort()
    ensures ShortInitials("Mary Ann Lee") == "MA"
  {
    MaryAnnLee();
  }

  /** The settings avatar's fallback: 'U' without a user or with an empty name. */
  function ProfileFallback(user: Option<User>): (r: string)
    ensures user.None? || user.value.name == "" ==> r == "U"
    ensures user.Some? && user.value.name != "" ==> r == ShortInitials(user.value.name)
  {
    if user.Some? && user.value.name != "" then ShortInitials(user.value.name) else "U"
  }
}
