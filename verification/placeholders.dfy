/**
 * Placeholder substitution of the translation service
 * (src/js/service/translateService.js:13-15): each extra argument replaces the
 * first `{?}` still present in the string, as JavaScript's
 * `String.prototype.replace` does with a string pattern.
 */
module Placeholders {
  import opened Wrappers

  const Placeholder: string := "{?}"

  /** A placeholder starts at position i of s. */
  predicate At(s: string, i: int) {
    0 <= i && i + 3 <= |s| && s[i..i + 3] == Placeholder
  }

  /** No placeholder anywhere in s. */
  predicate NoPlaceholder(s: string) {
    forall i :: 0 <= i < |s| ==> !At(s, i)
  }

  /** Placeholders at position j + 1 of s are those at position j of s[1..]. */
  lemma AtShift(s: string, j: int)
    requires |s| > 0 && j >= 0
    ensures At(s[1..], j) <==> At(s, j + 1)
  {
    if j + 3 <= |s| - 1 {
      assert s[1..][j..j + 3] == s[j + 1..j + 4];
    }
  }

  /** The position of the first placeholder, if any. */
  function FirstPlaceholder(s: string): (r: Option<nat>)
    ensures r.Some? ==> r.value + 3 <= |s| && s[r.value..r.value + 3] == Placeholder
    decreases |s|
  {
    if |s| < 3 then None
    else if s[..3] == Placeholder then Some(0)
    else
      var rest := FirstPlaceholder(s[1..]);
      if rest.None? then None
      else
        assert s[rest.value + 1..rest.value + 4] == s[1..][rest.value..rest.value + 3];
        Some(rest.value + 1)
  }

  /**
   * FirstPlaceholder finds the leftmost placeholder, and finds none exactly
   * when there is none.
   */
  lemma {:induction false} FirstPlaceholderIsLeftmost(s: string)
    ensures FirstPlaceholder(s).None? <==> NoPlaceholder(s)
    ensures FirstPlaceholder(s).Some? ==>
      At(s, FirstPlaceholder(s).value) && forall j :: 0 <= j < FirstPlaceholder(s).value ==> !At(s, j)
    decreases |s|
  {
    if |s| < 3 {
    } else if s[..3] == Placeholder {
      assert At(s, 0);
    } else {
      assert !At(s, 0);
      FirstPlaceholderIsLeftmost(s[1..]);
      forall j | 0 <= j < |s| - 1 ensures At(s[1..], j) <==> At(s, j + 1) { AtShift(s, j); }
      forall j | 0 < j < |s| && !At(s[1..], j - 1) ensures !At(s, j) { AtShift(s, j - 1); }
    }
  }

  /**
   * Replaces the first placeholder, as `replace` with a string pattern does:
   * a string without placeholder is returned unchanged; otherwise the text
   * before the first placeholder is kept, that placeholder becomes `arg`, and
   * the rest follows unchanged.
   */
  function ReplaceFirst(s: string, arg: string): (r: string)
    ensures FirstPlaceholder(s).None? ==> r == s
    ensures FirstPlaceholder(s).Some? ==>
      var k := FirstPlaceholder(s).value; r == s[..k] + arg + s[k + 3..]
    decreases |s|
  {
    if |s| < 3 then s
    else if s[..3] == Placeholder then
      assert s[..0] + arg + s[3..] == arg + s[3..];
      arg + s[3..]
    else
      var rest := ReplaceFirst(s[1..], arg);
      var r := [s[0]] + rest;
      assert FirstPlaceholder(s).None? ==> r == s by {
        if FirstPlaceholder(s).None? {
          assert [s[0]] + s[1..] == s;
        }
      }
      assert FirstPlaceholder(s).Some? ==>
        var k := FirstPlaceholder(s).value; r == s[..k] + arg + s[k + 3..]
      by {
        if FirstPlaceholder(s).Some? {
          var k := FirstPlaceholder(s[1..]).value;
          assert s[..k + 1] == [s[0]] + s[1..][..k];
          assert s[k + 1 + 3..] == s[1..][k + 3..];
        }
      }
      r
  }

  /** Replacing in a string without placeholder changes nothing. */
  lemma ReplaceWithoutPlaceholder(s: string, arg: string)
    requires NoPlaceholder(s)
    ensures ReplaceFirst(s, arg) == s
  {
    FirstPlaceholderIsLeftmost(s);
  }

  /** Each argument in turn replaces the first placeholder left by the earlier ones. */
  function Substitute(s: string, args: seq<string>): string
    decreases |args|
  {
    if args == [] then s else Substitute(ReplaceFirst(s, args[0]), args[1..])
  }

  /** Arguments are used in order: the last one is substituted into what the others produced. */
  lemma {:induction false} SubstituteSnoc(s: string, args: seq<string>, arg: string)
    ensures Substitute(s, args + [arg]) == ReplaceFirst(Substitute(s, args), arg)
    decreases |args|
  {
    if args == [] {
      assert [] + [arg] == [arg];
      assert [arg][1..] == [];
    } else {
      assert (args + [arg])[1..] == args[1..] + [arg];
      SubstituteSnoc(ReplaceFirst(s, args[0]), args[1..], arg);
    }
  }

  /** Substituting into a string without placeholder changes nothing, whatever the arguments. */
  lemma {:induction false} SubstituteWithoutPlaceholder(s: string, args: seq<string>)
    requires NoPlaceholder(s)
    ensures Substitute(s, args) == s
    decreases |args|
  {
    if args != [] {
      ReplaceWithoutPlaceholder(s, args[0]);
      SubstituteWithoutPlaceholder(s, args[1..]);
    }
  }

  /** The number of placeholders in s, counted at every position. */
  function Count(s: string): nat
    decreases |s|
  {
    if |s| < 3 then 0
    else (if s[..3] == Placeholder then 1 else 0) + Count(s[1..])
  }

  /** The count is zero exactly when there is no placeholder. */
  lemma {:induction false} CountZeroIff(s: string)
    ensures Count(s) == 0 <==> NoPlaceholder(s)
    decreases |s|
  {
    if |s| >= 3 {
      CountZeroIff(s[1..]);
      forall j | 0 <= j < |s| - 1 ensures At(s[1..], j) <==> At(s, j + 1) { AtShift(s, j); }
      if s[..3] == Placeholder {
        assert At(s, 0);
      } else {
        assert !At(s, 0);
        if NoPlaceholder(s[1..]) {
          forall j | 0 < j < |s| ensures !At(s, j) { AtShift(s, j - 1); }
        }
      }
    }
  }

  /** A character that cannot be part of a placeholder. */
  predicate Separator(ch: char) {
    ch != '{' && ch != '?' && ch != '}'
  }

  /** An argument that can neither hold nor complete a placeholder. */
  predicate CleanArgument(arg: string) {
    |arg| > 0 && forall i :: 0 <= i < |arg| ==> Separator(arg[i])
  }

  /** No placeholder spans a separator character. */
  lemma {:induction false} CountAroundSeparator(a: string, x: char, b: string)
    requires Separator(x)
    ensures Count(a + [x] + b) == Count(a) + Count(b)
    decreases |a|
  {
    var s := a + [x] + b;
    if a == [] {
      assert s == [x] + b;
      if |s| >= 3 {
        assert s[..3] != Placeholder by { assert s[0] == x; }
        assert s[1..] == b;
      }
    } else {
      if |s| >= 3 {
        assert s[1..] == a[1..] + [x] + b;
        CountAroundSeparator(a[1..], x, b);
        if |a| >= 3 {
          assert s[..3] == a[..3];
        } else {
          assert s[..3] != Placeholder by { assert s[|a|] == x; }
        }
      } else {
        assert |b| < 3;
      }
    }
  }

  /** No placeholder spans a clean argument. */
  lemma {:induction false} CountAroundArgument(a: string, arg: string, b: string)
    requires CleanArgument(arg)
    ensures Count(a + arg + b) == Count(a) + Count(b)
    decreases |arg|
  {
    var rest := arg[1..] + b;
    assert a + arg + b == a + [arg[0]] + rest by {
      assert arg == [arg[0]] + arg[1..];
    }
    CountAroundSeparator(a, arg[0], rest);
    if |arg| > 1 {
      assert CleanArgument(arg[1..]) by {
        forall i | 0 <= i < |arg| - 1 ensures Separator(arg[1..][i]) {
          assert arg[1..][i] == arg[i + 1];
        }
      }
      CountAroundArgument([], arg[1..], b);
      assert [] + arg[1..] + b == rest;
    } else {
      assert rest == b;
    }
  }

  /** A placeholder at the front counts once; its last two characters start none. */
  lemma CountAtFront(s: string)
    requires |s| >= 3 && s[..3] == Placeholder
    ensures Count(s) == 1 + Count(s[3..])
  {
    assert s[1] == '?' && s[2] == '}' by {
      assert s[..3][1] == s[1] && s[..3][2] == s[2];
    }
    var s1 := s[1..];
    var s2 := s1[1..];
    assert s2[1..] == s[3..];
    assert Count(s) == 1 + Count(s1);
    assert Count(s1) == Count(s2) by {
      if |s1| >= 3 { assert s1[..3][0] == '?'; }
    }
    assert Count(s2) == Count(s[3..]) by {
      if |s2| >= 3 { assert s2[..3][0] == '}'; }
    }
  }

  /** Counting from the first placeholder on. */
  lemma {:induction false} CountFromFirst(s: string)
    requires FirstPlaceholder(s).Some?
    ensures Count(s) == 1 + Count(s[FirstPlaceholder(s).value + 3..])
    decreases |s|
  {
    if s[..3] == Placeholder {
      CountAtFront(s);
    } else {
      var k := FirstPlaceholder(s).value;
      CountFromFirst(s[1..]);
      assert s[1..][k - 1 + 3..] == s[k + 3..];
    }
  }

  /** Text before the first placeholder holds none. */
  lemma PrefixBeforeFirst(s: string)
    requires FirstPlaceholder(s).Some?
    ensures Count(s[..FirstPlaceholder(s).value]) == 0
  {
    var k := FirstPlaceholder(s).value;
    FirstPlaceholderIsLeftmost(s);
    forall i | 0 <= i < k ensures !At(s[..k], i) {
      if i + 3 <= k {
        assert s[..k][i..i + 3] == s[i..i + 3];
        assert !At(s, i);
      }
    }
    CountZeroIff(s[..k]);
  }

  /**
   * With a clean argument, one substitution into a string that still has a
   * placeholder removes exactly one placeholder.
   */
  lemma ReplaceRemovesOnePlaceholder(s: string, arg: string)
    requires CleanArgument(arg) && Count(s) > 0
    ensures Count(ReplaceFirst(s, arg)) == Count(s) - 1
  {
    CountZeroIff(s);
    FirstPlaceholderIsLeftmost(s);
    var k := FirstPlaceholder(s).value;
    CountAroundArgument(s[..k], arg, s[k + 3..]);
    PrefixBeforeFirst(s);
    CountFromFirst(s);
  }

  /**
   * With clean arguments, substitution uses up one placeholder per argument
   * until none is left; surplus arguments are dropped.
   */
  lemma {:induction false} SubstituteCount(s: string, args: seq<string>)
    requires forall i :: 0 <= i < |args| ==> CleanArgument(args[i])
    ensures Count(Substitute(s, args)) == if |args| <= Count(s) then Count(s) - |args| else 0
    decreases |args|
  {
    if args != [] {
      if Count(s) > 0 {
        ReplaceRemovesOnePlaceholder(s, args[0]);
      } else {
        CountZeroIff(s);
        ReplaceWithoutPlaceholder(s, args[0]);
      }
      SubstituteCount(ReplaceFirst(s, args[0]), args[1..]);
    }
  }

  /**
   * Without the clean-argument condition, a substitution need not remove a
   * placeholder: replacing the one in `{?{?}` by `}` yields `{?}`, although
   * the argument holds no placeholder.
   */
  lemma ArgumentCanCompletePlaceholder()
    ensures NoPlaceholder("}")
    ensures Count("{?{?}") == 1
    ensures ReplaceFirst("{?{?}", "}") == "{?}"
    ensures Count(ReplaceFirst("{?{?}", "}")) == 1
  {
    var s := "{?{?}";
    assert s[..3] != Placeholder by { assert s[2] == '{'; }
    assert s[1..][..3] != Placeholder by { assert s[1..][0] == '?'; }
    assert s[1..][1..] == "{?}";
    assert FirstPlaceholder(s) == Some(2);
    assert s[..2] + "}" + s[5..] == "{?}";
  }
}
