/** Small worked cases of the template text and of the splice. */
module Examples {
  import opened Strings
  import opened Metadata
  import opened Classifier
  import opened Render
  import opened Splicer

  /** A field of a type named `int` renders as `... this.<name> ...  --int`. */
  lemma IntFieldLine(f: ReflectedField, name: string)
    requires f.name == name && f.fieldType.simpleName == "int"
    ensures AnnotateField(f) == "... this." + name + " ...  --int"
  {
  }

  /** Two fields `x` and `y` of a type named `int` give one placeholder line each. */
  lemma PointFieldLines(fs: seq<ReflectedField>)
    requires |fs| == 2 && fs[0].name == "x" && fs[1].name == "y"
    requires fs[0].fieldType.simpleName == "int" && fs[1].fieldType.simpleName == "int"
    ensures Lines(FieldAnnotations(fs)) == "... this.x ...  --int\n" + "... this.y ...  --int\n"
  {
    var x := "... this." + "x" + " ...  --int";
    var y := "... this." + "y" + " ...  --int";
    IntFieldLine(fs[0], "x");
    IntFieldLine(fs[1], "y");
    assert FieldAnnotations(fs) == [x, y];
    assert Lines([y]) == y + "\n" by {
      assert [y][1..] == [];
    }
    assert Lines([x, y]) == x + "\n" + Lines([y]) by {
      assert [x, y][1..] == [y];
    }
    assert x + "\n" == "... this.x ...  --int\n";
    assert y + "\n" == "... this.y ...  --int\n";
  }

  /** A class `Point` with fields `x` and `y` of a primitive type `int` and no methods:
      the two field lines are listed and both method sections stay empty, because a
      primitive type is pointless to annotate. */
  lemma PointTemplate(c: ReflectedType)
    requires c.name == "Point" && c.declaredMethods == [] && |c.declaredFields| == 2
    requires c.declaredFields[0].name == "x" && c.declaredFields[1].name == "y"
    requires forall i :: 0 <= i < 2 ==>
               c.declaredFields[i].fieldType.isPrimitive
               && c.declaredFields[i].fieldType.simpleName == "int"
    ensures ClassTemplate(c)
            == TemplateHeader("Point") + FieldsHeading
               + "... this.x ...  --int\n" + "... this.y ...  --int\n"
               + MethodsHeading + FieldMethodsHeading + "*/"
  {
    ClassTemplateSections(c);
    var fs := c.declaredFields;
    assert Lines(FieldMethodAnnotations(fs)) == "" by {
      assert IsPointlessToAnnotate(fs[0].fieldType) && IsPointlessToAnnotate(fs[1].fieldType);
      PointlessFieldsContributeNothing(fs);
    }
    PointFieldLines(fs);
    assert Lines(MethodAnnotations(c.declaredMethods, "")) == "";
  }

  /** One template keyed `Foo` goes before the line that declares `Foo`, and only there. */
  lemma FooSplice()
    ensures Splice(["class Foo {", "  Foo() {}", "}"], [("Foo", "/* TEMPLATE */")])
            == ["/* TEMPLATE */", "class Foo {", "  Foo() {}", "}"]
  {
    var m := [("Foo", "/* TEMPLATE */")];
    assert OccursAt("class Foo {", "class " + "Foo", 0);
    DeclaredKeyIsMatched(m, "class Foo {", 0);
    assert !Declares("  Foo() {}", "Foo") by {
      forall i | 0 <= i ensures !OccursAt("  Foo() {}", "class " + "Foo", i) {
        if i + 9 <= 10 {
          assert ("  Foo() {}")[i..i + 9][0] != 'c';
        }
      }
      assert !Contains("  Foo() {}", "interface " + "Foo");
    }
    assert !Declares("}", "Foo") by {
      assert !Contains("}", "class " + "Foo") && !Contains("}", "interface " + "Foo");
    }
  }
}
