/** `isTargetNamespace` (main.go): which namespaces the tracker watches. Go
    strings are byte strings and the Go code compares bytes; here names are
    sequences of characters and the comparison is element-wise, which is the
    same relation for names in one encoding. */
module Namespaces {

  /** The name is at least as long as the prefix and starts with it. */
  predicate IsTargetNamespace(namespaceName: string, namespacePrefix: string) {
    |namespaceName| >= |namespacePrefix| && namespaceName[..|namespacePrefix|] == namespacePrefix
  }

  /** The length-and-slice test is exactly the sequence-prefix relation: a
      name is accepted iff it is the prefix followed by some suffix. */
  lemma TargetIffPrefix(namespaceName: string, namespacePrefix: string)
    ensures IsTargetNamespace(namespaceName, namespacePrefix) <==> namespacePrefix <= namespaceName
    ensures IsTargetNamespace(namespaceName, namespacePrefix) ==>
      namespaceName == namespacePrefix + namespaceName[|namespacePrefix|..]
  {
  }

  /** Every name that extends the prefix is accepted. */
  lemma ExtensionIsTarget(namespacePrefix: string, suffix: string)
    ensures IsTargetNamespace(namespacePrefix + suffix, namespacePrefix)
  {
  }

  /** The empty prefix accepts every name; a name shorter than the prefix is
      rejected; a name differing from the prefix at some position within the
      prefix's length is rejected. */
  lemma TargetEdgeCases(namespaceName: string, namespacePrefix: string)
    ensures IsTargetNamespace(namespaceName, "")
    ensures |namespaceName| < |namespacePrefix| ==> !IsTargetNamespace(namespaceName, namespacePrefix)
    ensures (exists i :: 0 <= i < |namespacePrefix| && i < |namespaceName| && namespaceName[i] != namespacePrefix[i])
      ==> !IsTargetNamespace(namespaceName, namespacePrefix)
  {
  }

  /** With the tracker's default prefix `logger-ns`, `logger-ns-a` is watched
      and `other-ns` is not. */
  lemma DefaultPrefixExamples()
    ensures IsTargetNamespace("logger-ns-a", "logger-ns")
    ensures !IsTargetNamespace("other-ns", "logger-ns")
    ensures !IsTargetNamespace("logger", "logger-ns")
  {
  }
}
