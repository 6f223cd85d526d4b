/**
 * Facts about substring search on lower-cased text, used to decide the
 * search box over the sample photos' titles and descriptions.
 */
module TextSearch {
  import opened Text


  /** A character that lower-cases to the lower-case letter `c` is `c` or its capital. */
  lemma LowerCharInverse(x: char, c: char)
    requires 'a' <= c <= 'z' && LowerChar(x) == c
    ensures x == c || x == UpperChar(c)
  {
  }

  /**
   * A text holding the query's first letter in neither case does not
   * contain the query.
   */
  lemma NoFirstChar(s: string, sub: string)
    requires sub != [] && 'a' <= sub[0] <= 'z'
    requires sub[0] !in s && UpperChar(sub[0]) !in s
    ensures !Includes(ToLower(s), sub)
  {
    var t := ToLower(s);
    forall i | 0 <= i && i + |sub| <= |t| ensures !OccursAt(t, sub, i) {
      assert s[i] in s;
      if t[i] == sub[0] {
        LowerCharInverse(s[i], sub[0]);
      }
      assert t[i..i + |sub|][0] == t[i];
    }
  }

  /** An occurrence past the end of `a` in `a + q` is an occurrence in `q`. */
  lemma OccurrenceInSuffix(a: string, q: string, sub: string, i: int)
    requires OccursAt(ToLower(a + q), sub, i) && i >= |a|
    ensures OccursAt(ToLower(q), sub, i - |a|)
  {
    var s := a + q;
    var t := ToLower(s);
    var tq := ToLower(q);
    forall j | i <= j < i + |sub| ensures t[j] == tq[j - |a|] {
      assert s[j] == q[j - |a|];
    }
    assert t[i..i + |sub|] == tq[i - |a|..i - |a| + |sub|];
  }

  /**
   * An occurrence cannot start in a piece `[p0, p1] + r` whose only
   * possible start is `p0` and fails on the second character; so an
   * occurrence in the whole text is an occurrence in what follows the piece.
   */
  lemma SkipPiece(p0: char, p1: char, r: string, q: string, sub: string)
    requires |sub| >= 2 && 'a' <= sub[0] <= 'z'
    requires LowerChar(p0) == sub[0] ==> LowerChar(p1) != sub[1]
    requires LowerChar(p1) != sub[0]
    requires sub[0] !in r && UpperChar(sub[0]) !in r
    ensures Includes(ToLower([p0, p1] + r + q), sub) ==> Includes(ToLower(q), sub)
  {
    var a := [p0, p1] + r;
    var s := a + q;
    var t := ToLower(s);
    forall i | 0 <= i < |a| ensures !OccursAt(t, sub, i) {
      if i + |sub| <= |t| {
        var w := t[i..i + |sub|];
        assert w[0] == t[i] == LowerChar(s[i]);
        if i == 0 {
          assert w[1] == t[1] == LowerChar(s[1]);
          assert s[0] == p0 && s[1] == p1;
        } else if i == 1 {
          assert s[1] == p1;
        } else {
          assert s[i] == r[i - 2];
          assert r[i - 2] in r;
          if t[i] == sub[0] {
            LowerCharInverse(s[i], sub[0]);
          }
        }
      }
    }
    if Includes(t, sub) {
      var i :| OccursAt(t, sub, i);
      OccurrenceInSuffix(a, q, sub, i);
    }
  }

  lemma BorderLowered()
    ensures ToLower("border") == "border"
    ensures Trim("border") != ""
  {
    TrimEmptyIff("border");
    assert !IsWhitespace("border"[0]);
  }

  /** A text without a "b" in either case does not contain "border". */
  lemma BorderNotInPlainText(d: string)
    requires 'b' !in d && 'B' !in d
    ensures !Includes(ToLower(d), "border")
  {
    NoFirstChar(d, "border");
  }

  /** The first and the fourth sample titles have no "b" in either case. */
  lemma NoBInPlainTitles(t1: string, t4: string)
    requires t1 == "Golden Retriever Puppy" && t4 == "German Shepherd"
    ensures 'b' !in t1 && 'B' !in t1 && 'b' !in t4 && 'B' !in t4
  {
  }

  /** Both "b"s of the first description are followed by "l", never "o". */
  lemma BorderNotInDescription1(d: string)
    requires d == "Adorable golden retriever puppy playing in the garden"
    ensures !Includes(ToLower(d), "border")
  {
    var rest := "e golden " + "retriever puppy " + "playing in the garden";
    Description1Pieces(d, rest);
    SkipPiece('A', 'd', "ora", ['b', 'l'] + rest, "border");
    assert ['b', 'l'] + rest == ['b', 'l'] + rest + "";
    SkipPiece('b', 'l', rest, "", "border");
    NoFirstChar("", "border");
  }

  lemma Description1Pieces(d: string, rest: string)
    requires d == "Adorable golden retriever puppy playing in the garden"
    requires rest == "e golden " + "retriever puppy " + "playing in the garden"
    ensures d == ['A', 'd'] + "ora" + (['b', 'l'] + rest)
    ensures 'b' !in rest && 'B' !in rest
  {
    Description1Split(d);
    var a, b, c := "Adorable golden ", "retriever puppy ", "playing in the garden";
    assert a == ['A', 'd'] + "ora" + (['b', 'l'] + "e golden ");
    assert a + b + c == ['A', 'd'] + "ora" + (['b', 'l'] + ("e golden " + b + c));
  }

  lemma Description1Split(d: string)
    requires d == "Adorable golden retriever puppy playing in the garden"
    ensures d == "Adorable golden " + "retriever puppy " + "playing in the garden"
  {
  }

  lemma BorderNotInTitle3(d: string)
    requires d == "Labrador Portrait"
    ensures !Includes(ToLower(d), "border")
  {
    assert d == ['L', 'a'] + "" + (['b', 'r'] + "ador Portrait");
    SkipPiece('L', 'a', "", ['b', 'r'] + "ador Portrait", "border");
    assert ['b', 'r'] + "ador Portrait" == ['b', 'r'] + "ador Portrait" + "";
    SkipPiece('b', 'r', "ador Portrait", "", "border");
    NoFirstChar("", "border");
  }

  /** The only "b" of the third description starts "brador", not "border". */
  lemma BorderNotInDescription3(d: string)
    requires d == "Beautiful portrait of a chocolate labrador"
    ensures !Includes(ToLower(d), "border")
  {
    var r := "autiful portrait " + "of a chocolate la";
    Description3Pieces(d, r);
    SkipPiece('B', 'e', r, ['b', 'r'] + "ador", "border");
    assert ['b', 'r'] + "ador" == ['b', 'r'] + "ador" + "";
    SkipPiece('b', 'r', "ador", "", "border");
    NoFirstChar("", "border");
  }

  lemma Description3Pieces(d: string, r: string)
    requires d == "Beautiful portrait of a chocolate labrador"
    requires r == "autiful portrait " + "of a chocolate la"
    ensures d == ['B', 'e'] + r + (['b', 'r'] + "ador")
    ensures 'b' !in r && 'B' !in r
  {
    Description3Split(d);
  }

  lemma Description3Split(d: string)
    requires d == "Beautiful portrait of a chocolate labrador"
    ensures d == ['B', 'e'] + ("autiful portrait " + "of a chocolate la") + (['b', 'r'] + "ador")
  {
  }

  lemma BorderNotInDescription4(d: string)
    requires d == "Majestic German Shepherd standing in the field"
    ensures !Includes(ToLower(d), "border")
  {
    var e := "Majestic German " + "Shepherd standing in the field";
    Description4Pieces(d);
    NoBInDescription4(e);
    BorderNotInPlainText(d);
  }

  lemma Description4Pieces(d: string)
    requires d == "Majestic German Shepherd standing in the field"
    ensures d == "Majestic German " + "Shepherd standing in the field"
  {
  }

  lemma NoBInDescription4(e: string)
    requires e == "Majestic German " + "Shepherd standing in the field"
    ensures 'b' !in e && 'B' !in e
  {
  }

  lemma BorderInPhoto2(d: string)
    requires d == "Border Collie in Action"
    ensures Includes(ToLower(d), "border")
  {
    var t := ToLower(d);
    assert t[0..6] == "border";
    assert OccursAt(t, "border", 0);
  }
}
