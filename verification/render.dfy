/** The text of the placeholders in a class's design template. */
module Render {
  import opened Strings
  import opened Metadata
  import opened Classifier

  /** The opening of every placeholder, field or method. */
  const Lead := "... this."
  const FieldTail := " ...  --"
  const MethodTail := ") ...  --"

  /** One field as `... this.<name> ...  --<simple type name>`. */
  function AnnotateField(f: ReflectedField): (r: string)
    ensures |r| == |Lead| + |f.name| + |FieldTail| + |f.fieldType.simpleName|
    ensures StartsWith(r, Lead + f.name + FieldTail)
    ensures r[|r| - |f.fieldType.simpleName|..] == f.fieldType.simpleName
  {
    Lead + f.name + FieldTail + f.fieldType.simpleName
  }

  /** Reads a field placeholder back into the field name and the type's simple name. */
  function ParseFieldAnnotation(s: string): Option<(string, string)> {
    if !StartsWith(s, Lead) then None
    else
      var rest := s[|Lead|..];
      var i := IndexOf(rest, " ");
      if i == -1 || !StartsWith(rest[i..], FieldTail) then None
      else Some((rest[..i], rest[i + |FieldTail|..]))
  }

  /** In a name without spaces followed by the field tail, the first space is the tail's. */
  lemma FirstSpaceEndsName(name: string, rest: string)
    requires ' ' !in name
    ensures IndexOf(name + FieldTail + rest, " ") == |name|
  {
    var s := name + FieldTail + rest;
    assert OccursAt(s, " ", |name|);
    forall j | 0 <= j < |name|
      ensures !OccursAt(s, " ", j)
    {
      assert s[j..j + 1][0] == name[j];
    }
  }

  /** A field placeholder determines its field name and type name: Java identifiers have
      no spaces, so the placeholder can be read back. */
  lemma FieldAnnotationRoundTrip(f: ReflectedField)
    requires ' ' !in f.name
    ensures ParseFieldAnnotation(AnnotateField(f)) == Some((f.name, f.fieldType.simpleName))
  {
    var s := AnnotateField(f);
    var t := f.fieldType.simpleName;
    assert StartsWith(s, Lead);
    var rest := s[|Lead|..];
    assert rest == f.name + FieldTail + t;
    FirstSpaceEndsName(f.name, t);
    var i := |f.name|;
    assert rest[i..] == FieldTail + t;
    assert StartsWith(rest[i..], FieldTail);
    assert rest[..i] == f.name;
    assert rest[i + |FieldTail|..] == t;
  }

  /** The simple names of a method's parameter types, in declaration order. */
  function ParameterNames(m: ReflectedMethod): (ns: seq<string>)
    ensures |ns| == |m.parameterTypes|
    ensures forall i :: 0 <= i < |ns| ==> ns[i] == m.parameterTypes[i].simpleName
  {
    seq(|m.parameterTypes|, i requires 0 <= i < |m.parameterTypes| => m.parameterTypes[i].simpleName)
  }

  /** The builder loop: each parameter's simple name followed by one space. */
  function AppendParameters(sb: string, ps: seq<ReflectedType>): string
    decreases |ps|
  {
    if |ps| == 0 then sb else AppendParameters(sb + ps[0].simpleName + " ", ps[1..])
  }

  lemma {:induction false} AppendParametersJoins(sb: string, ps: seq<ReflectedType>, ns: seq<string>)
    requires |ps| > 0 && |ns| == |ps|
    requires forall i :: 0 <= i < |ps| ==> ns[i] == ps[i].simpleName
    ensures AppendParameters(sb, ps) == sb + JoinSpaces(ns) + " "
    decreases |ps|
  {
    if |ps| > 1 {
      AppendParametersJoins(sb + ps[0].simpleName + " ", ps[1..], ns[1..]);
    }
  }

  /** One method signature; the builder's trailing space is cut when there are parameters. */
  function AnnotateMethod(m: ReflectedMethod, prefix: string): string {
    var sb := AppendParameters(Lead + prefix + m.name + "(", m.parameterTypes);
    if |m.parameterTypes| > 0 && |sb| > 0 then sb[..|sb| - 1] + MethodTail + m.returnType.simpleName
    else sb + MethodTail + m.returnType.simpleName
  }

  /** A method placeholder lists the parameter types' simple names separated by single
      spaces, with no trailing space, and ends with the return type's simple name. */
  lemma MethodAnnotationShape(m: ReflectedMethod, prefix: string)
    ensures AnnotateMethod(m, prefix)
            == Lead + prefix + m.name + "(" + JoinSpaces(ParameterNames(m))
               + MethodTail + m.returnType.simpleName
  {
    var lead := Lead + prefix + m.name + "(";
    if |m.parameterTypes| > 0 {
      AppendParametersJoins(lead, m.parameterTypes, ParameterNames(m));
      var sb := AppendParameters(lead, m.parameterTypes);
      assert sb[..|sb| - 1] == lead + JoinSpaces(ParameterNames(m));
    }
  }

  /** The parameter list between the parentheses splits back into the parameter names. */
  lemma ParameterListRoundTrip(m: ReflectedMethod)
    requires forall i :: 0 <= i < |m.parameterTypes| ==>
               m.parameterTypes[i].simpleName != "" && ' ' !in m.parameterTypes[i].simpleName
    ensures Words(JoinSpaces(ParameterNames(m))) == ParameterNames(m)
  {
    WordsJoinSpaces(ParameterNames(m));
  }

  /** A method without parameters renders with an empty pair of parentheses. */
  lemma NoParameters(m: ReflectedMethod, prefix: string)
    requires |m.parameterTypes| == 0
    ensures AnnotateMethod(m, prefix) == Lead + prefix + m.name + "(" + MethodTail
                                        + m.returnType.simpleName
  {
  }

  /** The field placeholders of a class, in the order reflection returns the fields. */
  function FieldAnnotations(fs: seq<ReflectedField>): (r: seq<string>)
    decreases |fs|
    ensures |r| == |fs|
    ensures forall i :: 0 <= i < |fs| ==> r[i] == AnnotateField(fs[i])
  {
    if |fs| == 0 then [] else [AnnotateField(fs[0])] + FieldAnnotations(fs[1..])
  }

  /** The method placeholders of a method list, each with the same prefix. */
  function MethodAnnotations(ms: seq<ReflectedMethod>, prefix: string): (r: seq<string>)
    decreases |ms|
    ensures |r| == |ms|
    ensures forall i :: 0 <= i < |ms| ==> r[i] == AnnotateMethod(ms[i], prefix)
  {
    if |ms| == 0 then [] else [AnnotateMethod(ms[0], prefix)] + MethodAnnotations(ms[1..], prefix)
  }

  /** The methods of a field's type reached through the field, or none when the type is
      pointless to annotate. */
  function ReachableMethodAnnotations(f: ReflectedField): seq<string> {
    if IsPointlessToAnnotate(f.fieldType) then []
    else MethodAnnotations(f.fieldType.declaredMethods, f.name + ".")
  }

  /** For each field whose type is worth annotating, that type's methods reached through it. */
  function FieldMethodAnnotations(fs: seq<ReflectedField>): seq<string>
    decreases |fs|
  {
    if |fs| == 0 then []
    else ReachableMethodAnnotations(fs[0]) + FieldMethodAnnotations(fs[1..])
  }

  /** The opening comment that names the class. */
  function TemplateHeader(className: string): string {
    "// In " + className + "\n" + "/* TEMPLATE: \n"
  }

  const FieldsHeading := "Fields: \n"
  const MethodsHeading := "Methods: \n"
  const FieldMethodsHeading := "Methods of fields: \n"

  // The three builder loops of the class template, one append per placeholder.

  function AppendFieldLines(sb: string, fs: seq<ReflectedField>): string
    decreases |fs|
  {
    if |fs| == 0 then sb
    else AppendFieldLines(sb + AnnotateField(fs[0]) + "\n", fs[1..])
  }

  function AppendMethodLines(sb: string, ms: seq<ReflectedMethod>, prefix: string): string
    decreases |ms|
  {
    if |ms| == 0 then sb
    else AppendMethodLines(sb + AnnotateMethod(ms[0], prefix) + "\n", ms[1..], prefix)
  }

  function AppendFieldMethodLines(sb: string, fs: seq<ReflectedField>): string
    decreases |fs|
  {
    if |fs| == 0 then sb
    else
      var f := fs[0];
      var sb' := if IsPointlessToAnnotate(f.fieldType) then sb
                 else AppendMethodLines(sb, f.fieldType.declaredMethods, f.name + ".");
      AppendFieldMethodLines(sb', fs[1..])
  }

  /** The field loop appends every field placeholder on its own line. */
  lemma {:induction false} FieldLoopAppendsLines(sb: string, fs: seq<ReflectedField>)
    ensures AppendFieldLines(sb, fs) == sb + Lines(FieldAnnotations(fs))
    decreases |fs|
  {
    if |fs| > 0 {
      FieldLoopAppendsLines(sb + AnnotateField(fs[0]) + "\n", fs[1..]);
    }
  }

  /** The method loop appends every method placeholder on its own line. */
  lemma {:induction false} MethodLoopAppendsLines(sb: string, ms: seq<ReflectedMethod>, prefix: string)
    ensures AppendMethodLines(sb, ms, prefix) == sb + Lines(MethodAnnotations(ms, prefix))
    decreases |ms|
  {
    if |ms| > 0 {
      MethodLoopAppendsLines(sb + AnnotateMethod(ms[0], prefix) + "\n", ms[1..], prefix);
    }
  }

  /** One pass of the outer loop appends the field's reachable method placeholders, or
      nothing when its type is skipped. */
  lemma FieldPassAppendsLines(sb: string, f: ReflectedField)
    ensures (if IsPointlessToAnnotate(f.fieldType) then sb
             else AppendMethodLines(sb, f.fieldType.declaredMethods, f.name + "."))
            == sb + Lines(ReachableMethodAnnotations(f))
  {
    if !IsPointlessToAnnotate(f.fieldType) {
      MethodLoopAppendsLines(sb, f.fieldType.declaredMethods, f.name + ".");
    } else {
      assert sb + Lines([]) == sb;
    }
  }

  /** The outer loop over fields, one pass unrolled. */
  lemma FieldMethodLoopStep(sb: string, fs: seq<ReflectedField>)
    requires |fs| > 0
    ensures AppendFieldMethodLines(sb, fs)
            == AppendFieldMethodLines(sb + Lines(ReachableMethodAnnotations(fs[0])), fs[1..])
    ensures FieldMethodAnnotations(fs)
            == ReachableMethodAnnotations(fs[0]) + FieldMethodAnnotations(fs[1..])
  {
    FieldPassAppendsLines(sb, fs[0]);
  }

  /** One pass of the outer loop followed by the rest of the loop appends the placeholders
      of all the fields. */
  lemma FieldMethodLoopJoin(sb: string, fs: seq<ReflectedField>)
    requires |fs| > 0
    requires AppendFieldMethodLines(sb + Lines(ReachableMethodAnnotations(fs[0])), fs[1..])
             == sb + Lines(ReachableMethodAnnotations(fs[0])) + Lines(FieldMethodAnnotations(fs[1..]))
    ensures AppendFieldMethodLines(sb, fs) == sb + Lines(FieldMethodAnnotations(fs))
  {
    FieldMethodLoopStep(sb, fs);
    LinesRegroup(sb, ReachableMethodAnnotations(fs[0]), FieldMethodAnnotations(fs[1..]));
  }

  /** Appending two runs of lines one after the other appends their concatenation. */
  lemma LinesRegroup(sb: string, here: seq<string>, later: seq<string>)
    ensures sb + Lines(here) + Lines(later) == sb + Lines(here + later)
  {
    LinesAppend(here, later);
    assert sb + Lines(here) + Lines(later) == sb + (Lines(here) + Lines(later));
  }

  /** The nested loop appends the reachable method placeholders of every field, in order. */
  lemma {:induction false} FieldMethodLoopAppendsLines(sb: string, fs: seq<ReflectedField>)
    ensures AppendFieldMethodLines(sb, fs) == sb + Lines(FieldMethodAnnotations(fs))
    decreases |fs|
  {
    if |fs| > 0 {
      FieldMethodLoopAppendsLines(sb + Lines(ReachableMethodAnnotations(fs[0])), fs[1..]);
      FieldMethodLoopJoin(sb, fs);
    }
  }

  /** The design template of one class, built append by append. */
  function ClassTemplate(c: ReflectedType): string {
    var sb := AppendFieldLines(TemplateHeader(c.name) + FieldsHeading, c.declaredFields);
    var sb := AppendMethodLines(sb + MethodsHeading, c.declaredMethods, "");
    var sb := AppendFieldMethodLines(sb + FieldMethodsHeading, c.declaredFields);
    sb + "*/"
  }

  /** A class template is the header naming the class, then the "Fields", "Methods" and
      "Methods of fields" sections in that order, each entry on its own line, then the
      comment end. */
  lemma ClassTemplateSections(c: ReflectedType)
    ensures ClassTemplate(c)
            == TemplateHeader(c.name)
               + FieldsHeading + Lines(FieldAnnotations(c.declaredFields))
               + MethodsHeading + Lines(MethodAnnotations(c.declaredMethods, ""))
               + FieldMethodsHeading + Lines(FieldMethodAnnotations(c.declaredFields))
               + "*/"
  {
    var h := TemplateHeader(c.name) + FieldsHeading;
    FieldLoopAppendsLines(h, c.declaredFields);
    var sb1 := h + Lines(FieldAnnotations(c.declaredFields)) + MethodsHeading;
    MethodLoopAppendsLines(sb1, c.declaredMethods, "");
    var sb2 := sb1 + Lines(MethodAnnotations(c.declaredMethods, "")) + FieldMethodsHeading;
    FieldMethodLoopAppendsLines(sb2, c.declaredFields);
  }

  /** Appending keeps a prefix. */
  lemma StartsWithAppend(s: string, p: string, x: string)
    requires StartsWith(s, p)
    ensures StartsWith(s + x, p)
  {
    assert (s + x)[..|p|] == s[..|p|];
  }

  /** Every class template opens with the class's name and closes the comment. */
  lemma TemplateFrame(c: ReflectedType)
    ensures StartsWith(ClassTemplate(c), TemplateHeader(c.name) + FieldsHeading)
    ensures ClassTemplate(c)[|ClassTemplate(c)| - 2..] == "*/"
  {
    ClassTemplateSections(c);
    var h := TemplateHeader(c.name) + FieldsHeading;
    var s1 := h + Lines(FieldAnnotations(c.declaredFields));
    var s2 := s1 + MethodsHeading + Lines(MethodAnnotations(c.declaredMethods, ""));
    var s3 := s2 + FieldMethodsHeading + Lines(FieldMethodAnnotations(c.declaredFields));
    assert StartsWith(h, h) by {
      assert h[..|h|] == h;
    }
    StartsWithAppend(h, h, Lines(FieldAnnotations(c.declaredFields)));
    StartsWithAppend(s1, h, MethodsHeading);
    StartsWithAppend(s1 + MethodsHeading, h, Lines(MethodAnnotations(c.declaredMethods, "")));
    StartsWithAppend(s2, h, FieldMethodsHeading);
    StartsWithAppend(s2 + FieldMethodsHeading, h, Lines(FieldMethodAnnotations(c.declaredFields)));
    StartsWithAppend(s3, h, "*/");
    assert (s3 + "*/")[|s3 + "*/"| - 2..] == "*/";
  }

  /** A line of "Methods of fields" is exactly a method of a non-pointless field's type,
      prefixed by that field's name and a dot. */
  lemma {:induction false} FieldMethodAnnotationsExactly(fs: seq<ReflectedField>, x: string)
    ensures x in FieldMethodAnnotations(fs) <==>
      exists i, j :: 0 <= i < |fs| && !IsPointlessToAnnotate(fs[i].fieldType)
        && 0 <= j < |fs[i].fieldType.declaredMethods|
        && x == AnnotateMethod(fs[i].fieldType.declaredMethods[j], fs[i].name + ".")
    decreases |fs|
  {
    if |fs| > 0 {
      FieldMethodAnnotationsExactly(fs[1..], x);
      var head := ReachableMethodAnnotations(fs[0]);
      if x in FieldMethodAnnotations(fs[1..]) {
        var i, j :| 0 <= i < |fs[1..]| && !IsPointlessToAnnotate(fs[1..][i].fieldType)
          && 0 <= j < |fs[1..][i].fieldType.declaredMethods|
          && x == AnnotateMethod(fs[1..][i].fieldType.declaredMethods[j], fs[1..][i].name + ".");
        assert fs[1..][i] == fs[i + 1];
      }
      if x in head {
        var j :| 0 <= j < |head| && head[j] == x;
        assert x == AnnotateMethod(fs[0].fieldType.declaredMethods[j], fs[0].name + ".");
      }
      if exists i, j :: 0 <= i < |fs| && !IsPointlessToAnnotate(fs[i].fieldType)
           && 0 <= j < |fs[i].fieldType.declaredMethods|
           && x == AnnotateMethod(fs[i].fieldType.declaredMethods[j], fs[i].name + ".") {
        var i, j :| 0 <= i < |fs| && !IsPointlessToAnnotate(fs[i].fieldType)
          && 0 <= j < |fs[i].fieldType.declaredMethods|
          && x == AnnotateMethod(fs[i].fieldType.declaredMethods[j], fs[i].name + ".");
        if i == 0 {
          assert head[j] == x;
        } else {
          assert fs[1..][i - 1] == fs[i];
        }
      }
    }
  }

  /** Fields of pointless types contribute nothing to "Methods of fields". */
  lemma {:induction false} PointlessFieldsContributeNothing(fs: seq<ReflectedField>)
    requires forall i :: 0 <= i < |fs| ==> IsPointlessToAnnotate(fs[i].fieldType)
    ensures FieldMethodAnnotations(fs) == []
    decreases |fs|
  {
    if |fs| > 0 {
      PointlessFieldsContributeNothing(fs[1..]);
    }
  }
}
