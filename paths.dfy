/** Table and column paths (dcorm/path.py). */
module Paths {
  import opened Text

  /** `n` copies of `x`, as Python's `[x] * n`. */
  function Repeat(x: string, n: nat): (r: seq<string>)
    ensures |r| == n && forall i :: 0 <= i < n ==> r[i] == x
  {
    if n == 0 then [] else Repeat(x, n - 1) + [x]
  }

  /** A path's template: one `%s` per segment, joined by dots. */
  function Template(n: nat): string {
    JoinWith(".", Repeat("%s", n))
  }

  /** Peeling the first segment off a template of at least two segments. */
  lemma {:induction false} TemplateUnfold(n: nat)
    requires n >= 1
    ensures Template(n + 1) == "%s." + Template(n)
    decreases n
  {
    var items := Repeat("%s", n + 1);
    assert items[..|items| - 1] == Repeat("%s", n);
    if n == 1 {
      assert Repeat("%s", 1)[..0] == [];
    } else {
      TemplateUnfold(n - 1);
      assert Repeat("%s", n)[..n - 1] == Repeat("%s", n - 1);
    }
  }

  /** A template of one segment is a single `%s`. */
  lemma TemplateOne()
    ensures Template(1) == "%s"
  {
    assert Repeat("%s", 1) == ["%s"];
  }

  /** Each segment after the first adds `%s.`: one placeholder, not ending in `%`. */
  lemma SeparatorPlaceholder()
    ensures PlaceholderCount("%s.") == 1 && !EndsOpen("%s.")
  {
    assert "%s."[2..] == ".";
  }

  /** The template of `n` segments holds exactly `n` placeholders, one per bound segment. */
  lemma {:induction false} TemplatePlaceholders(n: nat)
    ensures PlaceholderCount(Template(n)) == n
    decreases n
  {
    if n == 0 {
      assert Template(0) == "";
    } else if n == 1 {
      TemplateOne();
      assert "%s"[2..] == "";
    } else {
      TemplateUnfold(n - 1);
      TemplatePlaceholders(n - 1);
      SeparatorPlaceholder();
      PlaceholderCountAppend("%s.", Template(n - 1));
    }
  }

  /** The template's text: `%s` for one segment, then `.%s` for each further one. */
  lemma {:induction false} TemplateLength(n: nat)
    requires n >= 1
    ensures |Template(n)| == 3 * n - 1
    ensures Template(n)[..2] == "%s"
    decreases n
  {
    if n == 1 {
      TemplateOne();
    } else {
      var rest := Template(n - 1);
      TemplateUnfold(n - 1);
      TemplateLength(n - 1);
      assert Template(n) == "%s." + rest;
      assert |Template(n)| == 3 + |rest|;
      assert Template(n)[..2] == ("%s." + rest)[..2];
    }
  }

  /** A template ends with the `s` of its last placeholder, so it never ends with an open `%`. */
  lemma {:induction false} TemplateSealed(n: nat)
    ensures !EndsOpen(Template(n))
    decreases n
  {
    if n == 0 {
      assert Template(0) == "";
    } else if n == 1 {
      TemplateOne();
    } else {
      var rest := Template(n - 1);
      TemplateUnfold(n - 1);
      TemplateSealed(n - 1);
      TemplateLength(n - 1);
      assert Template(n)[|Template(n)| - 1] == rest[|rest| - 1];
    }
  }
}
