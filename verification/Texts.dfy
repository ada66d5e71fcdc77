/** Small facts about text that several producers share. */
module Texts {
  import Decimal

  function IndexOf(s: string, c: char): (i: nat)
    ensures i <= |s|
    ensures i < |s| ==> s[i] == c
    ensures forall k | 0 <= k < i :: s[k] != c
  {
    if s == "" || s[0] == c then 0 else 1 + IndexOf(s[1..], c)
  }

  lemma IndexOfIs(s: string, c: char, i: nat)
    requires i < |s| && s[i] == c && c !in s[..i]
    ensures IndexOf(s, c) == i
  {
    assert forall k | 0 <= k < i :: s[..i][k] == s[k];
  }

  lemma Associative<T>(a: seq<T>, b: seq<T>, c: seq<T>)
    ensures a + (b + c) == (a + b) + c
  {
  }

  predicate IsAlpha(c: char) {
    'a' <= c <= 'z' || 'A' <= c <= 'Z'
  }

  predicate NameStart(c: char) {
    IsAlpha(c) || c == '_'
  }

  predicate NameChar(c: char) {
    NameStart(c) || Decimal.IsDigit(c)
  }

  /** A label name or metric prefix: a letter or an underscore, then letters, digits and underscores. */
  predicate ValidName(name: string) {
    && name != "" && NameStart(name[0])
    && forall i | 0 < i < |name| :: NameChar(name[i])
  }

  /** The byte loop that checks a label name, written out in each of the files that need it. */
  method IsValidName(name: string) returns (ok: bool)
    ensures ok <==> ValidName(name)
    ensures ok <==> && name != ""
                    && forall i | 0 <= i < |name| ::
                         || 'a' <= name[i] <= 'z' || 'A' <= name[i] <= 'Z' || name[i] == '_'
                         || (i > 0 && '0' <= name[i] <= '9')
  {
    if name == "" {
      return false;
    }
    if !NameStart(name[0]) {
      return false;
    }
    for i := 1 to |name|
      invariant forall k | 0 < k < i :: NameChar(name[k])
    {
      if !NameChar(name[i]) {
        return false;
      }
    }
    ok := true;
  }

  type Label = (string, string)

  predicate ValidNames(labels: seq<Label>) {
    forall i | 0 <= i < |labels| :: ValidName(labels[i].0)
  }

  predicate Distinct(labels: seq<Label>) {
    forall i, j | 0 <= i < j < |labels| :: labels[i].0 != labels[j].0
  }

  /** The search for a repeated name that both kinds of label go through. */
  method FirstDuplicate(labels: seq<Label>) returns (at: nat)
    ensures at <= |labels|
    ensures at == |labels| <==> Distinct(labels)
    ensures at < |labels| ==> Distinct(labels[..at]) && exists k | 0 <= k < at :: labels[k].0 == labels[at].0
  {
    for i := 0 to |labels|
      invariant Distinct(labels[..i])
    {
      if exists k | 0 <= k < i :: labels[k].0 == labels[i].0 {
        return i;
      }
      assert forall k | 0 <= k < i :: labels[..i + 1][k] == labels[..i][k];
    }
    assert labels[..|labels|] == labels;
    at := |labels|;
  }
}
