// Cutting a string at a separator and putting it together again: the dots of a version and the line
// ends of a stream.
module Splitting {
  // The fields of v, one more than it has separators.
  function Fields(v: string, sep: char): (f: seq<string>)
    ensures f != []
  {
    if v == [] then [[]]
    else if v[0] == sep then [[]] + Fields(v[1..], sep)
    else
      var rest := Fields(v[1..], sep);
      [[v[0]] + rest[0]] + rest[1..]
  }

  function Join(f: seq<string>, sep: char): string {
    if f == [] then "" else if |f| == 1 then f[0] else f[0] + [sep] + Join(f[1..], sep)
  }

  ghost predicate Whole(f: seq<string>, sep: char) {
    forall i | 0 <= i < |f| :: sep !in f[i]
  }

  // Splitting is the inverse of joining, and leaves no separator.
  lemma {:induction false} FieldsJoin(v: string, sep: char)
    ensures Join(Fields(v, sep), sep) == v
    ensures Whole(Fields(v, sep), sep)
  {
    if v != [] {
      FieldsJoin(v[1..], sep);
      var rest := Fields(v[1..], sep);
      if v[0] == sep {
        assert ([[]] + rest)[1..] == rest;
      } else {
        var f := [[v[0]] + rest[0]] + rest[1..];
        assert f[1..] == rest[1..];
        assert Join(f, sep) == [v[0]] + Join(rest, sep);
      }
    }
  }

  // Joining is the inverse of splitting, on fields without a separator.
  lemma {:induction false} JoinFields(f: seq<string>, sep: char)
    requires f != [] && Whole(f, sep)
    ensures Fields(Join(f, sep), sep) == f
  {
    if |f| == 1 {
      OneField(f[0], sep);
    } else {
      JoinFields(f[1..], sep);
      FirstField(f[0], Join(f[1..], sep), sep);
    }
  }

  lemma {:induction false} OneField(v: string, sep: char)
    requires sep !in v
    ensures Fields(v, sep) == [v]
  {
    if v != [] {
      OneField(v[1..], sep);
      assert [v[0]] + v[1..] == v;
    }
  }

  lemma {:induction false} FirstField(a: string, b: string, sep: char)
    requires sep !in a
    ensures Fields(a + [sep] + b, sep) == [a] + Fields(b, sep)
  {
    var v := a + [sep] + b;
    if a == [] {
      assert v[1..] == b;
    } else {
      FirstField(a[1..], b, sep);
      assert v[1..] == a[1..] + [sep] + b && v[0] == a[0];
      assert [a[0]] + a[1..] == a;
      var rest := [a[1..]] + Fields(b, sep);
      assert rest[1..] == Fields(b, sep);
    }
  }

  lemma {:induction false} JoinMore(f: seq<string>, last: string, sep: char)
    requires f != []
    ensures Join(f + [last], sep) == Join(f, sep) + [sep] + last
  {
    if |f| > 1 {
      JoinMore(f[1..], last, sep);
      assert (f + [last])[1..] == f[1..] + [last];
    } else {
      assert (f + [last])[1..] == [last];
    }
  }
}
