/** `TTTGame#joinor` of lesson5/ttt.rb, which formats the unmarked keys for
    the human's prompt, together with the corrected form of its case for
    three or more elements. */
module TttJoinOr {
  import opened Chars
  import opened TttBoard

  /** `Array#join(delimiter)` */
  function Join(xs: seq<string>, delimiter: string): string
  {
    if |xs| == 0 then ""
    else if |xs| == 1 then xs[0]
    else xs[0] + delimiter + Join(xs[1..], delimiter)
  }

  /** Joining one more element adds the delimiter and that element. */
  lemma {:induction false} JoinSnoc(xs: seq<string>, x: string, delimiter: string)
    requires |xs| >= 1
    ensures Join(xs + [x], delimiter) == Join(xs, delimiter) + delimiter + x
    decreases |xs|
  {
    if |xs| == 1 {
      assert xs + [x] == [xs[0], x];
      assert Join([x], delimiter) == x;
    } else {
      assert (xs + [x])[1..] == xs[1..] + [x];
      JoinSnoc(xs[1..], x, delimiter);
    }
  }

  /** `joinor(array, delimiter, word)` as written. With three or more
      elements the last one is replaced by `" #{word} #{last}"` before the
      join, so the delimiter and that leading space both stand before the
      word. */
  function JoinOr(xs: seq<string>, delimiter: string, word: string): (r: string)
    ensures |xs| == 0 ==> r == ""
    ensures |xs| == 1 ==> r == xs[0]
    ensures |xs| == 2 ==> r == xs[0] + " " + word + " " + xs[1]
    ensures |xs| >= 3 ==>
              r == Join(xs[..|xs| - 1], delimiter) + delimiter + " " + word + " " + xs[|xs| - 1]
  {
    if |xs| == 0 then ""
    else if |xs| == 1 then xs[0]
    else if |xs| == 2 then
      assert Join(xs[1..], " " + word + " ") == xs[1];
      assert xs[0] + (" " + word + " ") + xs[1] == xs[0] + " " + word + " " + xs[1];
      Join(xs, " " + word + " ")
    else
      JoinSnoc(xs[..|xs| - 1], " " + word + " " + xs[|xs| - 1], delimiter);
      Join(xs[..|xs| - 1] + [" " + word + " " + xs[|xs| - 1]], delimiter)
  }

  /** `joinor` with the evident intent for three or more elements: the
      last element is replaced by `"#{word} #{last}"`, so exactly the
      delimiter stands before the word. */
  function JoinOrIntended(xs: seq<string>, delimiter: string, word: string): (r: string)
    ensures |xs| <= 2 ==> r == JoinOr(xs, delimiter, word)
    ensures |xs| >= 3 ==>
              r == Join(xs[..|xs| - 1], delimiter) + delimiter + word + " " + xs[|xs| - 1]
  {
    if |xs| == 0 then ""
    else if |xs| == 1 then xs[0]
    else if |xs| == 2 then Join(xs, " " + word + " ")
    else
      JoinSnoc(xs[..|xs| - 1], word + " " + xs[|xs| - 1], delimiter);
      Join(xs[..|xs| - 1] + [word + " " + xs[|xs| - 1]], delimiter)
  }

  /** The short cases: nothing, the sole element, and two elements around
      the padded word. */
  lemma JoinOrShortLists(a: string, b: string, delimiter: string, word: string)
    ensures JoinOr([], delimiter, word) == ""
    ensures JoinOr([a], delimiter, word) == a
    ensures JoinOr([a, b], delimiter, word) == a + " " + word + " " + b
  {
    assert Join([b], " " + word + " ") == b;
  }

  /** How a key is shown in the prompt (`Integer#to_s` of 1..9). */
  function KeyName(k: Key): (s: string)
    ensures |s| == 1 && '1' <= s[0] <= '9'
  {
    ["123456789"[k - 1]]
  }

  function KeyNames(keys: seq<Key>): (r: seq<string>)
    ensures |r| == |keys|
    ensures forall i :: 0 <= i < |keys| ==> r[i] == KeyName(keys[i])
  {
    if keys == [] then [] else [KeyName(keys[0])] + KeyNames(keys[1..])
  }

  /** The digits of a string, in order. */
  function Digits(s: string): (r: string)
    ensures |r| <= |s|
  {
    if s == [] then [] else (if IsDigit(s[0]) then [s[0]] else []) + Digits(s[1..])
  }

  predicate NoDigits(s: string)
  {
    forall i :: 0 <= i < |s| ==> !IsDigit(s[i])
  }

  lemma {:induction false} DigitsAppend(a: string, b: string)
    ensures Digits(a + b) == Digits(a) + Digits(b)
    decreases |a|
  {
    if a == [] {
      assert a + b == b;
    } else {
      var head := if IsDigit(a[0]) then [a[0]] else [];
      assert (a + b)[0] == a[0];
      assert (a + b)[1..] == a[1..] + b;
      calc {
        Digits(a + b);
        head + Digits(a[1..] + b);
        { DigitsAppend(a[1..], b); }
        head + (Digits(a[1..]) + Digits(b));
        (head + Digits(a[1..])) + Digits(b);
        Digits(a) + Digits(b);
      }
    }
  }

  lemma DigitsOfDigitFree(s: string)
    requires NoDigits(s)
    ensures Digits(s) == []
    decreases |s|
  {
    if s != [] {
      DigitsOfDigitFree(s[1..]);
    }
  }

  /** The elements run together. */
  function Concat(xs: seq<string>): string
  {
    if xs == [] then "" else xs[0] + Concat(xs[1..])
  }

  /** Joining with a digit-free delimiter keeps exactly the digits of the
      elements, in order. */
  lemma {:induction false} DigitsOfJoin(xs: seq<string>, delimiter: string)
    requires NoDigits(delimiter)
    ensures Digits(Join(xs, delimiter)) == Digits(Concat(xs))
    decreases |xs|
  {
    if |xs| == 0 {
    } else if |xs| == 1 {
      assert Concat(xs) == xs[0] + Concat(xs[1..]);
      assert xs[0] + "" == xs[0];
    } else {
      DigitsOfJoin(xs[1..], delimiter);
      DigitsAppend(xs[0] + delimiter, Join(xs[1..], delimiter));
      DigitsAppend(xs[0], delimiter);
      DigitsOfDigitFree(delimiter);
      DigitsAppend(xs[0], Concat(xs[1..]));
    }
  }

  /** Key names are single digits. */
  lemma {:induction false} ConcatOfKeyNames(keys: seq<Key>)
    ensures Digits(Concat(KeyNames(keys))) == Concat(KeyNames(keys))
    decreases |keys|
  {
    if keys != [] {
      var names := KeyNames(keys);
      assert names[1..] == KeyNames(keys[1..]);
      ConcatOfKeyNames(keys[1..]);
      DigitsAppend(names[0], Concat(names[1..]));
    }
  }

  lemma {:induction false} ConcatAppendLast(xs: seq<string>, x: string)
    ensures Concat(xs + [x]) == Concat(xs) + x
    decreases |xs|
  {
    if xs == [] {
      assert [x][1..] == [];
    } else {
      assert (xs + [x])[1..] == xs[1..] + [x];
      ConcatAppendLast(xs[1..], x);
    }
  }

  /** Joining names whose last one is prefixed by a digit-free string
      keeps exactly the digits of the names. */
  lemma DigitsOfJoinWithPrefixedLast(xs: seq<string>, delimiter: string, prefix: string)
    requires |xs| > 0 && NoDigits(delimiter) && NoDigits(prefix)
    ensures Digits(Join(xs[..|xs| - 1] + [prefix + xs[|xs| - 1]], delimiter)) == Digits(Concat(xs))
  {
    var n := |xs|;
    var front := xs[..n - 1];
    var last := prefix + xs[n - 1];
    DigitsOfJoin(front + [last], delimiter);
    ConcatAppendLast(front, last);
    ConcatAppendLast(front, xs[n - 1]);
    assert xs == front + [xs[n - 1]];
    DigitsOfDigitFree(prefix);
    calc {
      Digits(Concat(front + [last]));
      Digits(Concat(front) + last);
      { DigitsAppend(Concat(front), last); }
      Digits(Concat(front)) + Digits(last);
      { DigitsAppend(prefix, xs[n - 1]); assert Digits(prefix) + Digits(xs[n - 1]) == Digits(xs[n - 1]); }
      Digits(Concat(front)) + Digits(xs[n - 1]);
      { DigitsAppend(Concat(front), xs[n - 1]); }
      Digits(Concat(front) + xs[n - 1]);
      Digits(Concat(xs));
    }
  }

  /** `" #{word} "` and `"#{word} "` have no digits when `word` has none. */
  lemma PaddedWordNoDigits(word: string)
    requires NoDigits(word)
    ensures NoDigits(" " + word + " ") && NoDigits(word + " ")
  {
    var sep := " " + word + " ";
    assert forall i :: 0 <= i < |word| ==> sep[i + 1] == word[i];
    assert forall i :: 0 <= i < |word| ==> (word + " ")[i] == word[i];
  }

  /** The prompt `Please choose #{joinor(board.unmarked_keys)}` names
      exactly the unmarked keys, in ascending order: reading its digits back
      gives the key names run together. */
  lemma {:induction false} JoinOrListsKeys(keys: seq<Key>, delimiter: string, word: string)
    requires NoDigits(delimiter) && NoDigits(word)
    ensures Digits(JoinOr(KeyNames(keys), delimiter, word)) == Concat(KeyNames(keys))
  {
    var xs := KeyNames(keys);
    ConcatOfKeyNames(keys);
    var n := |xs|;
    PaddedWordNoDigits(word);
    if n == 1 {
      assert Concat(xs) == xs[0] + Concat(xs[1..]);
      assert xs[0] + "" == xs[0];
    } else if n == 2 {
      DigitsOfJoin(xs, " " + word + " ");
    } else if n > 2 {
      DigitsOfJoinWithPrefixedLast(xs, delimiter, " " + word + " ");
    }
  }

  /** The corrected `joinor` lists the same keys in the same order. */
  lemma {:induction false} JoinOrIntendedListsKeys(keys: seq<Key>, delimiter: string, word: string)
    requires NoDigits(delimiter) && NoDigits(word)
    ensures Digits(JoinOrIntended(KeyNames(keys), delimiter, word)) == Concat(KeyNames(keys))
  {
    var xs := KeyNames(keys);
    ConcatOfKeyNames(keys);
    var n := |xs|;
    PaddedWordNoDigits(word);
    if n == 1 {
      assert Concat(xs) == xs[0] + Concat(xs[1..]);
      assert xs[0] + "" == xs[0];
    } else if n == 2 {
      DigitsOfJoin(xs, " " + word + " ");
    } else if n > 2 {
      assert word + " " + xs[n - 1] == (word + " ") + xs[n - 1];
      DigitsOfJoinWithPrefixedLast(xs, delimiter, word + " ");
    }
  }

  /** Two spaces in a row. */
  predicate DoubleSpace(s: string)
  {
    exists i :: 0 <= i < |s| - 1 && s[i] == ' ' && s[i + 1] == ' '
  }

  /** As written, three keys are listed as `"1, 2,  or 3"`, with two spaces
      before the word. */
  lemma JoinOrThreeKeys()
    ensures JoinOr(["1", "2", "3"], ", ", "or") == "1, 2,  or 3"
    ensures DoubleSpace(JoinOr(["1", "2", "3"], ", ", "or"))
  {
    var s := JoinOr(["1", "2", "3"], ", ", "or");
    assert " " + "or" + " " + "3" == " or 3";
    assert ["1", "2", "3"][..2] + [" or 3"] == ["1", "2", " or 3"];
    assert Join([" or 3"], ", ") == " or 3";
    assert Join(["2", " or 3"], ", ") == "2" + ", " + " or 3";
    assert Join(["1", "2", " or 3"], ", ") == "1" + ", " + ("2" + ", " + " or 3");
    assert s == "1, 2,  or 3";
    assert s[5] == ' ' && s[6] == ' ';
  }

  /** A word: non-empty and free of spaces. */
  predicate Word(s: string)
  {
    |s| > 0 && forall i :: 0 <= i < |s| ==> s[i] != ' '
  }

  predicate StartsWithSpace(s: string)
  {
    |s| > 0 && s[0] == ' '
  }

  predicate EndsWithSpace(s: string)
  {
    |s| > 0 && s[|s| - 1] == ' '
  }

  lemma NoDoubleSpaceAppend(a: string, b: string)
    requires !DoubleSpace(a) && !DoubleSpace(b)
    requires !(EndsWithSpace(a) && StartsWithSpace(b))
    ensures !DoubleSpace(a + b)
  {
    forall i | 0 <= i < |a + b| - 1
      ensures !((a + b)[i] == ' ' && (a + b)[i + 1] == ' ')
    {
      if i + 1 < |a| {
        assert (a + b)[i] == a[i] && (a + b)[i + 1] == a[i + 1];
      } else if i >= |a| {
        assert (a + b)[i] == b[i - |a|] && (a + b)[i + 1] == b[i - |a| + 1];
      } else {
        assert (a + b)[i] == a[|a| - 1] && (a + b)[i + 1] == b[0];
      }
    }
  }

  /** The corrected `joinor` never prints two spaces in a row when the
      elements are words, whatever their number. */
  lemma JoinOrIntendedNoDoubleSpace(xs: seq<string>)
    requires forall i :: 0 <= i < |xs| ==> Word(xs[i])
    ensures !DoubleSpace(JoinOrIntended(xs, ", ", "or"))
  {
    var n := |xs|;
    if n == 1 {
      assert !DoubleSpace(xs[0]);
    } else if n == 2 {
      var s := JoinOrIntended(xs, ", ", "or");
      assert " " + "or" + " " == " or ";
      assert Join(xs[1..], " or ") == xs[1];
      assert s == xs[0] + " or " + xs[1];
      assert !DoubleSpace(xs[0]) && !DoubleSpace(xs[1]);
      assert !DoubleSpace(" or ") by {
        assert " or "[1] != ' ' && " or "[2] != ' ';
      }
      NoDoubleSpaceAppend(xs[0], " or ");
      NoDoubleSpaceAppend(xs[0] + " or ", xs[1]);
    } else if n > 2 {
      var last := "or" + " " + xs[n - 1];
      assert last == "or " + xs[n - 1];
      assert !DoubleSpace("or ") by {
        assert "or "[0] != ' ' && "or "[1] != ' ';
      }
      assert !DoubleSpace(xs[n - 1]);
      NoDoubleSpaceAppend("or ", xs[n - 1]);
      assert last[0] == 'o';
      JoinWithLastNoDoubleSpace(xs[..n - 1], last);
    }
  }

  /** Words joined by `", "` followed by a last element that neither
      starts with a space nor contains two in a row. */
  lemma {:induction false} JoinWithLastNoDoubleSpace(xs: seq<string>, last: string)
    requires |xs| > 0
    requires forall i :: 0 <= i < |xs| ==> Word(xs[i])
    requires !DoubleSpace(last) && !StartsWithSpace(last)
    ensures !DoubleSpace(Join(xs + [last], ", "))
    decreases |xs|
  {
    var ys := xs + [last];
    assert ys[1..] == xs[1..] + [last];
    assert !DoubleSpace(xs[0]);
    assert !DoubleSpace(", ") by {
      assert ", "[0] != ' ';
    }
    NoDoubleSpaceAppend(xs[0], ", ");
    if |xs| == 1 {
      assert ys[1..] == [last];
      NoDoubleSpaceAppend(xs[0] + ", ", last);
      assert Join(ys, ", ") == xs[0] + ", " + last;
    } else {
      JoinWithLastNoDoubleSpace(xs[1..], last);
      var rest := Join(ys[1..], ", ");
      assert !StartsWithSpace(rest) by {
        assert rest[0] == xs[1][0];
      }
      NoDoubleSpaceAppend(xs[0] + ", ", rest);
    }
  }
}
