/** tenant.DefaultBranchDestination: the name a branch gets when nobody chooses one. */
module Destinations {
  import opened Strings
  import opened Names

  const DEV := "_dev"

  lemma {:induction false} Underscored(s: string)
    ensures var r := ReplaceChar(s, '-', "_");
            |r| == |s| && forall i :: 0 <= i < |s| ==> r[i] == if s[i] == '-' then '_' else s[i]
  {
    if s != "" {
      Underscored(s[1..]);
    }
  }

  /** The fallback suffixes the program keeps in reserve are never reached; see DefaultIsIdentSafe. */
  function DefaultBranchDestination(src: string): string {
    if !DatabaseNameSafe(src) then "" else CutTo(ReplaceChar(src, '-', "_"), 63 - |DEV|) + DEV
  }

  /** For every source a branch may be taken of, the first candidate is already a valid tenant name. */
  lemma DefaultIsIdentSafe(src: string)
    requires DatabaseNameSafe(src)
    ensures IdentSafe(DefaultBranchDestination(src))
    ensures |src| <= 59 && IdentSafe(src) ==> DefaultBranchDestination(src) == src + "_dev"
  {
    Underscored(src);
    var base := CutTo(ReplaceChar(src, '-', "_"), 59);
    assert forall i :: 0 <= i < |base| ==> AlphaNum(base[i]) || base[i] == '_';
  }

  /**
   The default is refused by Branch as its own source exactly for full-length tenant names that end in the
   suffix already.
   */
  lemma DefaultIsSourceIff(src: string)
    requires DatabaseNameSafe(src)
    ensures DefaultBranchDestination(src) == src <==> IdentSafe(src) && |src| == 63 && src[59..] == "_dev"
  {
    DefaultIsIdentSafe(src);
    if IdentSafe(src) {
      NoHyphens(src);
      CutAndTail(src);
    }
  }

  lemma NoHyphens(src: string)
    requires IdentSafe(src)
    ensures ReplaceChar(src, '-', "_") == src
  {
    Underscored(src);
  }

  lemma CutAndTail(s: string)
    requires |s| <= 63
    ensures CutTo(s, 59) + "_dev" == s <==> |s| == 63 && s[59..] == "_dev"
  {
    if |s| == 63 {
      assert s == s[..59] + s[59..];
    }
  }
}
