/**
 * Python's printf-style `%` operator on text, `fmt % arg`, with one text argument (neither a
 * tuple nor a mapping) of more than one character. Only whether the formatting raises, and what
 * it raises, is modelled: the playbooks that use it never read a failed result.
 */
module PyFormat {
  import opened Optional
  import Exceptions
  import Seqs

  /** The flag characters of a conversion specifier. */
  const Flags: set<char> := {'-', '+', ' ', '#', '0'}
  const Digits: set<char> := {'0', '1', '2', '3', '4', '5', '6', '7', '8', '9'}
  /** `h`, `l` or `L`: accepted once before the conversion character, and ignored. */
  const LengthModifiers: set<char> := {'h', 'l', 'L'}
  /** The conversions that accept a text argument. */
  const TextConversions: set<char> := {'s', 'r', 'a'}
  /** The conversions that need a number (or, for `%c`, a single character). */
  const NumberConversions: set<char> := {'d', 'i', 'u', 'o', 'x', 'X', 'e', 'E', 'f', 'F', 'g', 'G', 'c'}
  /** What a specifier may hold between its `%` and its conversion character. */
  const Skipped: set<char> := Flags + Digits + {'.'} + LengthModifiers

  /** Letters other than the length modifiers end a specifier's optional parts. */
  lemma {:induction false} LetterNotSkipped(c: char)
    requires ('a' <= c <= 'z' || 'A' <= c <= 'Z') && c != 'h' && c != 'l' && c != 'L'
    ensures c !in Skipped
  {
  }

  /** Where the run of characters of `cs` that starts at `i` in `w` ends. */
  function SkipFrom(w: string, i: nat, cs: set<char>): (j: nat)
    requires i <= |w|
    ensures i <= j <= |w| && (j == |w| || w[j] !in cs)
    ensures forall k :: i <= k < j ==> w[k] in cs
    decreases |w| - i
  {
    if i < |w| && w[i] in cs then SkipFrom(w, i + 1, cs) else i
  }

  /** A part of a specifier read: an exception, or the position in the specifier where the next part starts. */
  datatype Stage = Stop(error: Exceptions.PyError) | At(pos: nat)

  /** PY_SSIZE_T_MAX of a 64-bit build: the largest width `%` accepts. */
  const WidthMax: nat := 0x7FFF_FFFF_FFFF_FFFF
  /** INT_MAX: the largest precision `%` accepts. */
  const PrecisionMax: nat := 0x7FFF_FFFF

  /** The value of a decimal digit character (and 0 for any other character). */
  function DigitValue(c: char): (r: nat)
    ensures r <= 9
  {
    if c in Digits then c as int - '0' as int else 0
  }

  /** The decimal value of a run of digits, read from the left as CPython accumulates it. */
  function Value(ds: string): nat
  {
    if ds == [] then 0 else 10 * Value(ds[..|ds| - 1]) + DigitValue(ds[|ds| - 1])
  }

  function Pow10(n: nat): nat
  {
    if n == 0 then 1 else 10 * Pow10(n - 1)
  }

  /**
   * Flags and a width. `*` takes its value from the argument, which is text, not an integer; a
   * width past `WidthMax` raises ValueError ("width too big").
   */
  function FlagsAndWidth(w: string): (r: Stage)
    ensures r.At? ==> r.pos <= |w| && forall k :: 0 <= k < r.pos ==> w[k] in Skipped
    ensures r.At? ==> var i := SkipFrom(w, 0, Flags); i <= r.pos && Value(w[i..r.pos]) <= WidthMax
  {
    var i := SkipFrom(w, 0, Flags);
    if i < |w| && w[i] == '*' then Stop(Exceptions.TypeError)     // * wants int
    else
      var j := SkipFrom(w, i, Digits);
      if Value(w[i..j]) > WidthMax then Stop(Exceptions.ValueError)   // width too big
      else At(j)
  }

  /**
   * An optional precision `.digits` (`.*` fails as the width does, and a precision past
   * `PrecisionMax` raises ValueError, "precision too big") and an optional length modifier.
   */
  function PrecisionAndLength(w: string, i: nat): (r: Stage)
    requires i <= |w|
    ensures r.At? ==> i <= r.pos <= |w| && forall k :: i <= k < r.pos ==> w[k] in Skipped
  {
    if i + 1 < |w| && w[i] == '.' && w[i + 1] == '*' then Stop(Exceptions.TypeError)
    else
      var j := if i < |w| && w[i] == '.' then SkipFrom(w, i + 1, Digits) else i;
      if i < |w| && w[i] == '.' && Value(w[i + 1..j]) > PrecisionMax then Stop(Exceptions.ValueError)
      else if j < |w| && w[j] in LengthModifiers then At(j + 1) else At(j)
  }

  /** Reading one more digit never lowers the value read so far. */
  lemma {:induction false} ValuePrefix(ds: string, k: nat)
    requires k <= |ds|
    ensures Value(ds[..k]) <= Value(ds)
    decreases |ds|
  {
    if k < |ds| {
      var pre := ds[..|ds| - 1];
      assert pre[..k] == ds[..k];
      ValuePrefix(pre, k);
    } else {
      assert ds[..k] == ds;
    }
  }

  /**
   * CPython checks the bound digit by digit and raises as soon as the value read so far passes it;
   * that happens exactly when the value of the whole run passes it.
   */
  lemma {:induction false} RunningCheck(ds: string, bound: nat)
    ensures (exists k :: 0 < k <= |ds| && Value(ds[..k]) > bound) <==> Value(ds) > bound
  {
    if ds != [] {
      assert ds[..|ds|] == ds;
    }
    forall k | 0 < k <= |ds| && Value(ds[..k]) > bound
      ensures Value(ds) > bound
    {
      ValuePrefix(ds, k);
    }
  }

  /** A run of digits is at least its leading digit times the power of ten of its other places. */
  lemma {:induction false} LeadingDigit(ds: string)
    requires ds != []
    ensures Value(ds) >= DigitValue(ds[0]) * Pow10(|ds| - 1)
    decreases |ds|
  {
    var pre := ds[..|ds| - 1];
    if |ds| == 1 {
      assert pre == [];
    } else {
      assert pre[0] == ds[0];
      LeadingDigit(pre);
      var d, p := DigitValue(ds[0]), Pow10(|pre| - 1);
      assert Pow10(|ds| - 1) == 10 * p;
      TenTimes(d, p);
      assert Value(ds) >= 10 * Value(pre);
    }
  }

  /** Multiplying by ten regroups. */
  lemma TenTimes(d: nat, p: nat)
    ensures d * (10 * p) == 10 * (d * p)
  {
  }

  /** The end of one conversion specifier: an exception, or how many characters it took and the arguments left. */
  datatype Spec = Fail(error: Exceptions.PyError) | Next(used: nat, args: nat)

  /** The conversion character at `j` in `w`, applied to the next of `args` unused arguments. */
  function Conversion(w: string, j: nat, args: nat): (r: Spec)
    requires j <= |w|
    ensures r.Next? ==> j < |w| && w[j] in TextConversions && r.used == j + 1 && r.args + 1 == args
  {
    if j == |w| then Fail(Exceptions.ValueError)                 // incomplete format
    else if args == 0 then Fail(Exceptions.TypeError)            // not enough arguments
    else if w[j] in TextConversions then Next(j + 1, args - 1)
    else if w[j] in NumberConversions then Fail(Exceptions.TypeError)
    else Fail(Exceptions.ValueError)                             // unsupported format character
  }

  /**
   * One conversion specifier `w`, read from just after its `%` with `args` arguments unused: an
   * optional `(key)`, flags, a width, a precision, a length modifier and the conversion character.
   * A specifier that goes on consumes one argument and at least one character, and everything
   * before its conversion character is a flag, a digit, a `.` or a length modifier.
   */
  function Specifier(w: string, args: nat): (r: Spec)
    ensures r.Next? ==> 1 <= r.used <= |w| && r.args + 1 == args
    ensures r.Next? ==> forall k :: 0 <= k < r.used - 1 ==> w[k] in Skipped
  {
    if w == [] then Fail(Exceptions.ValueError)                  // incomplete format
    else if w[0] == '(' then Fail(Exceptions.TypeError)          // format requires a mapping
    else
      match FlagsAndWidth(w)
      case Stop(e) => Fail(e)
      case At(i) =>
        match PrecisionAndLength(w, i)
        case Stop(e) => Fail(e)
        case At(j) => Conversion(w, j, args)
  }

  /** A specifier with nothing between its `%` and its conversion character. */
  lemma {:induction false} PlainConversion(w: string, args: nat)
    requires w != [] && w[0] !in Skipped && w[0] != '(' && w[0] != '*'
    ensures Specifier(w, args) == Conversion(w, 0, args)
  {
    assert SkipFrom(w, 0, Flags) == 0;
    assert FlagsAndWidth(w) == At(0);
    assert PrecisionAndLength(w, 0) == At(0);
  }

  /** A space ends a run of digits. */
  lemma SpaceNotDigit()
    ensures ' ' !in Digits
  {
  }

  /** Where the digits that start `w` at `i` end, when a non-digit or the end follows them. */
  lemma {:induction false} DigitsEnd(w: string, i: nat, n: nat)
    requires i + n <= |w| && forall k :: i <= k < i + n ==> w[k] in Digits
    requires i + n == |w| || w[i + n] !in Digits
    ensures SkipFrom(w, i, Digits) == i + n
    decreases n
  {
    if n > 0 {
      assert w[i] in Digits;
      DigitsEnd(w, i + 1, n - 1);
    }
  }

  /**
   * A width `ds` (whose first digit is not a `0`, which would be a flag) ending before a
   * non-digit: past `WidthMax` the specifier raises ValueError; otherwise the width ends with `ds`.
   */
  lemma {:induction false} WidthTooBig(ds: string, rest: string, args: nat)
    requires ds != [] && ds[0] != '0' && forall k :: 0 <= k < |ds| ==> ds[k] in Digits
    requires rest == [] || rest[0] !in Digits
    ensures Value(ds) > WidthMax ==> Specifier(ds + rest, args) == Fail(Exceptions.ValueError)
    ensures Value(ds) <= WidthMax ==> FlagsAndWidth(ds + rest) == At(|ds|)
  {
    var w := ds + rest;
    assert w[0] == ds[0] && w[0] !in Flags;
    assert SkipFrom(w, 0, Flags) == 0;
    assert forall k :: 0 <= k < |ds| ==> w[k] == ds[k];
    DigitsEnd(w, 0, |ds|);
    assert w[0..|ds|] == ds;
  }

  /**
   * A precision `.ds` ending before a non-digit: past `PrecisionMax` the specifier raises
   * ValueError; otherwise the precision ends with `ds`, followed by an optional length modifier.
   */
  lemma {:induction false} PrecisionTooBig(ds: string, rest: string, args: nat)
    requires ds != [] && forall k :: 0 <= k < |ds| ==> ds[k] in Digits
    requires rest == [] || rest[0] !in Digits
    ensures Value(ds) > PrecisionMax ==> Specifier(("." + ds) + rest, args) == Fail(Exceptions.ValueError)
    ensures Value(ds) <= PrecisionMax ==>
      (PrecisionAndLength(("." + ds) + rest, 0)
       == if rest != [] && rest[0] in LengthModifiers then At(|ds| + 2) else At(|ds| + 1))
  {
    var w := ("." + ds) + rest;
    assert w[0] == '.' && w[1] == ds[0] && w[1] != '*';
    assert SkipFrom(w, 0, Flags) == 0 && SkipFrom(w, 0, Digits) == 0;
    assert w[0..0] == [];
    assert FlagsAndWidth(w) == At(0);
    assert forall k :: 1 <= k < 1 + |ds| ==> w[k] == ds[k - 1];
    DigitsEnd(w, 1, |ds|);
    assert w[1..1 + |ds|] == ds;
    if rest != [] {
      assert w[1 + |ds|] == rest[0];
    }
  }

  /** `s % arg` read from the left with `args` arguments unused: `None` when it succeeds. */
  function Format(s: string, args: nat): Option<Exceptions.PyError>
    decreases |s|
  {
    if s == [] then (if args > 0 then Some(Exceptions.TypeError) else None)   // not all arguments converted
    else if s[0] != '%' then Format(s[1..], args)
    else if |s| >= 2 && s[1] == '%' then Format(s[2..], args)                 // `%%` is a literal `%`
    else
      match Specifier(s[1..], args)
      case Fail(e) => Some(e)
      case Next(used, left) => Format(s[1 + used..], left)
  }

  /**
   * A `%` at the head of `s` whose width, the `n` digits after it (the first not a `0`, which
   * would be a flag), is past `WidthMax` raises ValueError.
   */
  lemma {:induction false} WidthRaises(s: string, n: nat)
    requires 1 <= n && n + 1 <= |s| && s[0] == '%' && s[1] != '0'
    requires forall k :: 1 <= k < n + 1 ==> s[k] in Digits
    requires n + 1 == |s| || s[n + 1] !in Digits
    requires Value(s[1..n + 1]) > WidthMax
    ensures Format(s, 1) == Some(Exceptions.ValueError)
  {
    var w := s[1..];
    assert w[0] == s[1] && w[0] !in Flags;
    assert SkipFrom(w, 0, Flags) == 0;
    assert forall k :: 0 <= k < n ==> w[k] == s[k + 1];
    DigitsEnd(w, 0, n);
    assert w[0..n] == s[1..n + 1];
    assert Specifier(w, 1) == Fail(Exceptions.ValueError);
  }

  /**
   * A `%.` at the head of `s` whose precision, the `n` digits after it, is past `PrecisionMax`
   * raises ValueError.
   */
  lemma {:induction false} PrecisionRaises(s: string, n: nat)
    requires 1 <= n && n + 2 <= |s| && s[0] == '%' && s[1] == '.'
    requires forall k :: 2 <= k < n + 2 ==> s[k] in Digits
    requires n + 2 == |s| || s[n + 2] !in Digits
    requires Value(s[2..n + 2]) > PrecisionMax
    ensures Format(s, 1) == Some(Exceptions.ValueError)
  {
    var w := s[1..];
    assert w[0] == '.' && w[1] == s[2] && w[1] != '*';
    assert SkipFrom(w, 0, Flags) == 0 && SkipFrom(w, 0, Digits) == 0;
    assert w[0..0] == [];
    assert FlagsAndWidth(w) == At(0);
    assert forall k :: 1 <= k < n + 1 ==> w[k] == s[k + 1];
    DigitsEnd(w, 1, n);
    assert w[1..n + 1] == s[2..n + 2];
    assert Specifier(w, 1) == Fail(Exceptions.ValueError);
  }

  /** `WidthRaises` for a `%` and the width `ds`, before `after` and then `t`. */
  lemma {:induction false} WidthRaisesBefore(ds: string, after: string, t: string)
    requires ds != [] && ds[0] != '0' && forall k :: 0 <= k < |ds| ==> ds[k] in Digits
    requires Value(ds) > WidthMax
    requires after != [] ==> after[0] !in Digits
    requires t == [] || t[0] !in Digits
    ensures Format(("%" + ds + after) + t, 1) == Some(Exceptions.ValueError)
  {
    var s := ("%" + ds + after) + t;
    Seqs.Middle("%", ds, after + t);
    Seqs.AppendAssoc("%" + ds, after, t);
    assert s == ("%" + ds) + (after + t);
    assert |ds| + 1 == |s| || s[|ds| + 1] !in Digits by {
      if after != [] {
        assert (after + t)[0] == after[0];
      } else if t != [] {
        assert (after + t)[0] == t[0];
      }
    }
    WidthRaises(s, |ds|);
  }

  /** `PrecisionRaises` for a `%.` and the precision `ds`, before `after` and then `t`. */
  lemma {:induction false} PrecisionRaisesBefore(ds: string, after: string, t: string)
    requires ds != [] && forall k :: 0 <= k < |ds| ==> ds[k] in Digits
    requires Value(ds) > PrecisionMax
    requires after != [] ==> after[0] !in Digits
    requires t == [] || t[0] !in Digits
    ensures Format(("%." + ds + after) + t, 1) == Some(Exceptions.ValueError)
  {
    var s := ("%." + ds + after) + t;
    Seqs.Middle("%.", ds, after + t);
    Seqs.AppendAssoc("%." + ds, after, t);
    assert s == ("%." + ds) + (after + t);
    assert |ds| + 2 == |s| || s[|ds| + 2] !in Digits by {
      if after != [] {
        assert (after + t)[0] == after[0];
      } else if t != [] {
        assert (after + t)[0] == t[0];
      }
    }
    PrecisionRaises(s, |ds|);
  }

  /** Powers of ten multiply by adding their exponents. */
  lemma {:induction false} Pow10Add(a: nat, b: nat)
    ensures Pow10(a + b) == Pow10(a) * Pow10(b)
    decreases a
  {
    if a > 0 {
      Pow10Add(a - 1, b);
    }
  }

  /** Twenty nines are past `WidthMax`. */
  lemma {:induction false} WideNines()
    ensures forall k :: 0 <= k < 20 ==> "99999999999999999999"[k] in Digits
    ensures Value("99999999999999999999") > WidthMax
  {
    var wide := "99999999999999999999";
    assert forall k :: 0 <= k < |wide| ==> wide[k] in Digits;
    LeadingDigit(wide);
    assert Pow10(9) == 1000000000 && Pow10(10) == 10 * Pow10(9);
    Pow10Add(9, 10);
    assert DigitValue(wide[0]) == 9;
  }

  /** Ten nines are past `PrecisionMax`. */
  lemma {:induction false} PreciseNines()
    ensures forall k :: 0 <= k < 10 ==> "9999999999"[k] in Digits
    ensures Value("9999999999") > PrecisionMax
  {
    var precise := "9999999999";
    assert forall k :: 0 <= k < |precise| ==> precise[k] in Digits;
    LeadingDigit(precise);
    assert DigitValue(precise[0]) == 9 && Pow10(9) == 1000000000;
  }

  /** Every `%` of `s` is one half of a `%%`, pairing from the left. */
  predicate Paired(s: string)
    decreases |s|
  {
    if s == [] then true
    else if s[0] != '%' then Paired(s[1..])
    else |s| >= 2 && s[1] == '%' && Paired(s[2..])
  }

  /** Text without a `%` is copied and uses no argument. */
  lemma {:induction false} NoPercent(p: string, t: string, args: nat)
    requires forall i :: 0 <= i < |p| ==> p[i] != '%'
    ensures Format(p + t, args) == Format(t, args)
    decreases |p|
  {
    if p != [] {
      assert (p + t)[1..] == p[1..] + t;
      NoPercent(p[1..], t, args);
    } else {
      assert p + t == t;
    }
  }

  /** `%s` takes the next argument, when there is one, and formatting goes on after it. */
  lemma {:induction false} TextTakesOne(s: string, args: nat)
    requires |s| >= 2 && s[0] == '%' && s[1] == 's' && args > 0
    ensures Format(s, args) == Format(s[2..], args - 1)
  {
    var w := s[1..];
    assert w[0] == 's' && w[1..] == s[2..];
    LetterNotSkipped(w[0]);
    PlainConversion(w, args);
  }

  /** `%s` followed by text without a `%` takes one argument, and raises when none is left. */
  lemma {:induction false} TextSpecifier(s: string, args: nat)
    requires |s| >= 2 && s[0] == '%' && s[1] == 's'
    requires forall i :: 2 <= i < |s| ==> s[i] != '%'
    ensures Format(s, args) == if args == 1 then None else Some(Exceptions.TypeError)
  {
    if args == 0 {
      var w := s[1..];
      assert w[0] == 's' && s[1] != '%';
      LetterNotSkipped(w[0]);
      PlainConversion(w, 0);
      assert Specifier(w, 0) == Fail(Exceptions.TypeError);
    } else {
      var p := s[2..];
      assert forall i :: 0 <= i < |p| ==> p[i] != '%' by {
        forall i | 0 <= i < |p| ensures p[i] != '%' {
          assert p[i] == s[i + 2];
        }
      }
      NoPercent(p, [], args - 1);
      assert p + [] == p;
      TextTakesOne(s, args);
    }
  }

  /** A text whose only `%` starts the `%s` at `k` takes exactly one argument. */
  lemma {:induction false} SingleText(s: string, k: nat, args: nat)
    requires k + 2 <= |s| && s[k] == '%' && s[k + 1] == 's'
    requires forall i :: 0 <= i < |s| && i != k ==> s[i] != '%'
    ensures Format(s, args) == if args == 1 then None else Some(Exceptions.TypeError)
  {
    var p, q := s[..k], s[k..];
    assert s == p + q;
    assert forall i :: 0 <= i < |p| ==> p[i] != '%' by {
      forall i | 0 <= i < |p| ensures p[i] != '%' {
        assert p[i] == s[i];
      }
    }
    assert forall i :: 2 <= i < |q| ==> q[i] != '%' by {
      forall i | 2 <= i < |q| ensures q[i] != '%' {
        assert q[i] == s[k + i];
      }
    }
    NoPercent(p, q, args);
    TextSpecifier(q, args);
  }

  /** `%s` and text without a `%` use the only argument: the `t` that ends `s` is formatted with none. */
  lemma {:induction false} TextThenStarved(s: string, t: string)
    requires |s| >= 2 + |t| && s[0] == '%' && s[1] == 's' && s[|s| - |t|..] == t
    requires forall i :: 2 <= i < |s| - |t| ==> s[i] != '%'
    ensures Format(s, 1) == Format(t, 0)
  {
    var p := s[2..|s| - |t|];
    assert s[2..] == p + t;
    assert forall i :: 0 <= i < |p| ==> p[i] != '%' by {
      forall i | 0 <= i < |p| ensures p[i] != '%' {
        assert p[i] == s[i + 2];
      }
    }
    NoPercent(p, t, 0);
    TextTakesOne(s, 1);
  }

  /** `%s` followed by `p`, which has no `%`, uses the only argument: `t` is formatted with none. */
  lemma {:induction false} TextBefore(p: string, t: string)
    requires forall i :: 0 <= i < |p| ==> p[i] != '%'
    ensures Format(("%s" + p) + t, 1) == Format(t, 0)
  {
    var s := ("%s" + p) + t;
    assert s[0] == '%' && s[1] == 's' && s[|s| - |t|..] == t;
    forall i | 2 <= i < |s| - |t| ensures s[i] != '%' {
      assert s[i] == p[i - 2];
    }
    TextThenStarved(s, t);
  }

  /** A conversion that needs a number is none of the characters a specifier may hold before it. */
  lemma {:induction false} NumberNotSkipped(c: char)
    requires c in NumberConversions
    ensures c !in Skipped && c !in TextConversions && c != '(' && c != '*' && c != '%'
  {
    assert ('a' <= c <= 'z' || 'A' <= c <= 'Z') && c != 'h' && c != 'l' && c != 'L';
    LetterNotSkipped(c);
  }

  /** A `%` directly followed by a conversion character that does not take text raises at once. */
  lemma {:induction false} RejectedConversion(c: char, rest: string)
    requires c !in Skipped && c !in TextConversions && c != '(' && c != '*' && c != '%'
    ensures Format(("%" + [c]) + rest, 1)
      == Some(if c in NumberConversions then Exceptions.TypeError else Exceptions.ValueError)
  {
    var s := ("%" + [c]) + rest;
    var w := s[1..];
    assert s[0] == '%' && s[1] == c && w[0] == c;
    PlainConversion(w, 1);
  }

  /** Paired `%%` are copied as literal `%` and use no argument. */
  lemma {:induction false} PairedSkips(h: string, t: string, args: nat)
    requires Paired(h)
    ensures Format(h + t, args) == Format(t, args)
    decreases |h|
  {
    if h == [] {
      assert h + t == t;
    } else if h[0] != '%' {
      assert (h + t)[1..] == h[1..] + t;
      PairedSkips(h[1..], t, args);
    } else {
      assert (h + t)[1] == '%' && (h + t)[2..] == h[2..] + t;
      PairedSkips(h[2..], t, args);
    }
  }

  /**
   * With every argument used, a text that is left over and still fails keeps failing whatever
   * comes before it: each `%` before it either pairs up or starts a specifier with no argument.
   */
  lemma {:induction false} NoArgumentLeft(u: string, t: string)
    requires t != [] && t[0] != '%' && Format(t, 0).Some?
    ensures Format(u + t, 0).Some?
    decreases |u|
  {
    if u == [] {
      assert u + t == t;
    } else if u[0] != '%' {
      assert (u + t)[1..] == u[1..] + t;
      NoArgumentLeft(u[1..], t);
    } else if |u| >= 2 && u[1] == '%' {
      assert (u + t)[1] == '%' && (u + t)[2..] == u[2..] + t;
      NoArgumentLeft(u[2..], t);
    } else {
      assert |u + t| >= 2 && (u + t)[1] != '%';
      assert Specifier((u + t)[1..], 0).Fail?;
    }
  }

  /**
   * A specifier that meets a character it cannot hold (`w[k]`) before the text `t` that ends `w`
   * stops before `t`: it fails, or it leaves no argument for a `t` that needs one.
   */
  lemma {:induction false} SpecifierStopsBefore(w: string, k: nat, t: string)
    requires |t| <= |w| && w[|w| - |t|..] == t && k < |w| - |t| && w[k] !in Skipped
    requires t != [] && t[0] != '%' && Format(t, 0).Some?
    ensures Specifier(w, 1).Fail? || Format(w[Specifier(w, 1).used..], 0).Some?
  {
    var sp := Specifier(w, 1);
    if sp.Next? {
      assert k >= sp.used - 1;
      var u := w[sp.used..|w| - |t|];
      assert w[sp.used..] == u + t;
      NoArgumentLeft(u, t);
    }
  }

  /** A text that starts with a specifier fails when that specifier fails or leaves a failing rest. */
  lemma {:induction false} SpecifierFirst(s: string)
    requires |s| >= 2 && s[0] == '%' && s[1] != '%'
    requires var sp := Specifier(s[1..], 1); sp.Fail? || Format(s[1..][sp.used..], 0).Some?
    ensures Format(s, 1).Some?
  {
    var sp := Specifier(s[1..], 1);
    if sp.Next? {
      assert s[1 + sp.used..] == s[1..][sp.used..];
    }
  }

  /**
   * A `%` that does not pair up, followed in `s` by a character no specifier holds (`s[k]`) before a
   * part that fails with no argument left, makes the formatting raise.
   */
  lemma {:induction false} LoneStarves(s: string, k: nat)
    requires |s| >= 2 && s[0] == '%' && s[1] != '%'
    requires 1 <= k && k + 1 < |s| && s[k] !in Skipped && s[k + 1] != '%'
    requires Format(s[k + 1..], 0).Some?
    ensures Format(s, 1).Some?
  {
    var w := s[1..];
    var rest := s[k + 1..];
    assert w[|w| - |rest|..] == rest;
    assert w[k - 1] == s[k];
    SpecifierStopsBefore(w, k - 1, rest);
    SpecifierFirst(s);
  }

  /** `LoneStarves` for a lone `%` at the head of `h`, with the character no specifier holds at `t[k]`. */
  lemma {:induction false} LoneBefore(h: string, t: string, k: nat)
    requires h != [] && h[0] == '%' && (|h| == 1 || h[1] != '%')
    requires k + 1 < |t| && t[0] != '%' && t[k] !in Skipped && t[k + 1] != '%'
    requires Format(t[k + 1..], 0).Some?
    ensures Format(h + t, 1).Some?
  {
    var s := h + t;
    assert s[1] != '%' by {
      if |h| == 1 {
        assert s[1] == t[0];
      }
    }
    assert s[|h| + k] == t[k] && s[|h| + k + 1] == t[k + 1];
    assert s[|h| + k + 1..] == t[k + 1..];
    LoneStarves(s, |h| + k);
  }
}
