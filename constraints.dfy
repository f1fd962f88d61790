/**
 * constraint.rs: a named `CHECK` constraint and the text it contributes to
 * `CREATE TABLE`. The condition is SQL supplied by the caller; it is copied
 * into the output as given, neither parsed nor escaped.
 */
module Constraints {
  datatype CheckConstraint = CheckConstraint(name: string, condition: string)

  /** `CheckConstraint::new`: the name and the condition are stored verbatim. */
  function NewCheckConstraint(name: string, condition: string): (c: CheckConstraint)
    ensures c.name == name && c.condition == condition
  {
    CheckConstraint(name, condition)
  }

  /** `Display for CheckConstraint`: `CONSTRAINT <name> CHECK (<condition>)`. */
  function Render(c: CheckConstraint): (r: string)
    ensures |r| == |c.name| + |c.condition| + 20
    ensures r[..11] == "CONSTRAINT " && r[11..11 + |c.name|] == c.name
    ensures r[11 + |c.name|..19 + |c.name|] == " CHECK ("
    ensures r[19 + |c.name|..|r| - 1] == c.condition && r[|r| - 1] == ')'
  {
    var r := "CONSTRAINT " + c.name + " CHECK (" + c.condition + ")";
    assert r[..11] == "CONSTRAINT ";
    assert r[11..11 + |c.name|] == c.name;
    assert r[11 + |c.name|..19 + |c.name|] == " CHECK (";
    assert r[19 + |c.name|..|r| - 1] == c.condition;
    r
  }

  /**
   * The rendering loses nothing: two constraints whose names have the same
   * length render alike only when they are the same constraint.
   */
  lemma RenderInjective(a: CheckConstraint, b: CheckConstraint)
    requires |a.name| == |b.name| && Render(a) == Render(b)
    ensures a == b
  {
    var r := Render(a);
    assert a.name == r[11..11 + |a.name|] == b.name;
    assert a.condition == r[19 + |a.name|..|r| - 1] == b.condition;
  }

  /** The rendering is never empty, so a list of constraints joins to text exactly when it has one. */
  lemma RenderNonEmpty(c: CheckConstraint)
    ensures Render(c) != ""
  {
  }
}
