/** String helpers with the meaning of the JavaScript string methods the
    components call. */
module Text {

  /** `s.endsWith(suffix)`: compares the two strings character by character,
      starting from their last characters. */
  function EndsWith(s: string, suffix: string): bool
    decreases |suffix|
  {
    if suffix == [] then true
    else if s == [] then false
    else s[|s| - 1] == suffix[|suffix| - 1] && EndsWith(s[..|s| - 1], suffix[..|suffix| - 1])
  }

  /** `suffix` is the tail of `s`. */
  predicate IsSuffix(suffix: string, s: string)
  {
    |suffix| <= |s| && s[|s| - |suffix|..] == suffix
  }

  /** The character-by-character comparison holds exactly when `suffix` is
      the tail of `s`. */
  lemma {:induction false} EndsWithIsSuffix(s: string, suffix: string)
    ensures EndsWith(s, suffix) <==> IsSuffix(suffix, s)
    decreases |suffix|
  {
    if suffix == [] {
      assert s[|s|..] == [];
    } else if s != [] {
      var s', u' := s[..|s| - 1], suffix[..|suffix| - 1];
      EndsWithIsSuffix(s', u');
      assert suffix == u' + [suffix[|suffix| - 1]];
      if |suffix| <= |s| {
        assert s[|s| - |suffix|..] == s'[|s'| - |u'|..] + [s[|s| - 1]];
      }
    }
  }
}
