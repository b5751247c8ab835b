/** Which types are not worth listing the methods of. */
module Classifier {
  import opened Strings
  import opened Metadata

  /** Qualified-name prefixes of the Java platform and of the two course libraries. */
  const ExcludedPrefixes: seq<string> := ["java.", "tester.", "javalib."]

  /** Primitives, `String` and its supertypes, and library types are pointless to annotate. */
  function IsPointlessToAnnotate(t: ReflectedType): bool {
    t.isPrimitive || t.assignableFromString ||
    StartsWith(t.name, "java.") || StartsWith(t.name, "tester.") ||
    StartsWith(t.name, "javalib.")
  }

  /** A type whose qualified name is an excluded prefix followed by anything is skipped. */
  lemma LibraryTypesArePointless(t: ReflectedType, p: string, rest: string)
    requires p in ExcludedPrefixes && t.name == p + rest
    ensures IsPointlessToAnnotate(t)
  {
    assert t.name[..|p|] == p;
  }

  /** A type is skipped exactly when it is primitive, a supertype of `String`, or named by
      an excluded prefix followed by anything. */
  lemma PointlessExactly(t: ReflectedType)
    ensures IsPointlessToAnnotate(t) <==>
              t.isPrimitive || t.assignableFromString
              || exists p, rest :: p in ExcludedPrefixes && t.name == p + rest
  {
    if exists p, rest :: p in ExcludedPrefixes && t.name == p + rest {
      var p, rest :| p in ExcludedPrefixes && t.name == p + rest;
      LibraryTypesArePointless(t, p, rest);
    }
    if IsPointlessToAnnotate(t) && !t.isPrimitive && !t.assignableFromString {
      if StartsWith(t.name, "java.") {
        ExcludedPrefixSplits(t, "java.");
      } else if StartsWith(t.name, "tester.") {
        ExcludedPrefixSplits(t, "tester.");
      } else {
        ExcludedPrefixSplits(t, "javalib.");
      }
    }
  }

  /** A name that starts with an excluded prefix is that prefix followed by the rest. */
  lemma ExcludedPrefixSplits(t: ReflectedType, p: string)
    requires p in ExcludedPrefixes && StartsWith(t.name, p)
    ensures exists q, rest :: q in ExcludedPrefixes && t.name == q + rest
  {
    assert t.name == p + t.name[|p|..];
  }

  /** A user class of the default package, neither primitive nor a `String` supertype, is
      worth annotating; so is a `javax.` type, because the prefix test includes the dot. */
  lemma UserTypesAreAnnotated(t: ReflectedType)
    requires !t.isPrimitive && !t.assignableFromString
    requires '.' !in t.name || StartsWith(t.name, "javax.")
    ensures !IsPointlessToAnnotate(t)
  {
    forall p | p in ExcludedPrefixes
      ensures !StartsWith(t.name, p)
    {
      if |p| <= |t.name| {
        if '.' !in t.name {
          assert t.name[..|p|][|p| - 1] != p[|p| - 1];
        } else {
          assert t.name[..|p|][4] == 'x' != p[4];
        }
      }
    }
    assert "java." in ExcludedPrefixes && "tester." in ExcludedPrefixes;
    assert "javalib." in ExcludedPrefixes;
  }
}
