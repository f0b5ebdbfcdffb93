/** Facts about joining and splitting text that several models need. */
module Text {

  /** The text up to the first separator is determined by the whole text. */
  lemma {:induction false} SplitOnce(a: string, x: string, b: string, y: string, sep: char)
    requires sep !in a && sep !in b
    requires a + [sep] + x == b + [sep] + y
    ensures a == b && x == y
  {
    var u, v := a + [sep] + x, b + [sep] + y;
    assert v[0] == if b == "" then sep else b[0];
    if a != "" && b != "" {
      assert a[1..] + [sep] + x == u[1..] == v[1..] == b[1..] + [sep] + y;
      SplitOnce(a[1..], x, b[1..], y, sep);
    } else {
      assert x == u[1..] && y == v[1..];
    }
  }
}
