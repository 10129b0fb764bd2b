/**
 * The few `java.lang.String` operations the install commands rely on:
 * `startsWith`, `endsWith` and `String.format` restricted to the `%s`
 * conversion (the only one any template of the model uses) and the `%%`
 * escape.
 */
module JavaText {
  import opened Wrappers

  /** `s.startsWith(prefix)` */
  predicate StartsWith(s: string, prefix: string) {
    |prefix| <= |s| && s[..|prefix|] == prefix
  }

  /** `s.endsWith(suffix)` */
  predicate EndsWith(s: string, suffix: string) {
    |suffix| <= |s| && s[|s| - |suffix|..] == suffix
  }

  /** True when `s` holds no '%', so `String.format` copies it verbatim. */
  predicate NoPercent(s: string) {
    '%' !in s
  }

  lemma NoPercentConcat(a: string, b: string)
    requires NoPercent(a) && NoPercent(b)
    ensures NoPercent(a + b)
  {
  }

  /** Puts `p` in front of a formatted result, keeping a failure a failure. */
  function Prepend(p: string, o: Option<string>): Option<string> {
    match o
    case Some(v) => Some(p + v)
    case None => None
  }

  /**
   * True when every '%' of `t` starts a `%s` or a `%%`, read left to right
   * as `String.format` scans it.
   */
  predicate StringConversionsOnly(t: string)
    decreases |t|
  {
    if |t| == 0 then true
    else if t[0] == '%' then |t| >= 2 && (t[1] == 's' || t[1] == '%') && StringConversionsOnly(t[2..])
    else StringConversionsOnly(t[1..])
  }

  /** Number of `%s` conversions `String.format` meets while scanning `t`. */
  function Placeholders(t: string): nat
    decreases |t|
  {
    if |t| == 0 then 0
    else if |t| >= 2 && t[0] == '%' && t[1] == 's' then 1 + Placeholders(t[2..])
    else if |t| >= 2 && t[0] == '%' && t[1] == '%' then Placeholders(t[2..])
    else Placeholders(t[1..])
  }

  /**
   * `String.format(t, args...)`: each `%s` takes the next argument, `%%` is
   * a literal '%', surplus arguments are ignored. None is the exception:
   * `MissingFormatArgumentException` for a missing argument, and any
   * conversion other than `%s` and `%%` is treated as a failure too.
   */
  function Format(t: string, args: seq<string>): (r: Option<string>)
    ensures r.Some? <==> StringConversionsOnly(t) && Placeholders(t) <= |args|
    decreases |t|
  {
    if |t| == 0 then Some("")
    else if t[0] == '%' then
      if |t| >= 2 && t[1] == 's' then
        if |args| == 0 then None else Prepend(args[0], Format(t[2..], args[1..]))
      else if |t| >= 2 && t[1] == '%' then Prepend("%", Format(t[2..], args))
      else None
    else Prepend([t[0]], Format(t[1..], args))
  }

  /** `%%` is a literal '%' and does not consume an argument. */
  lemma {:induction false} FormatEscape(rest: string, args: seq<string>)
    ensures Format("%%" + rest, args) == Prepend("%", Format(rest, args))
  {
    var t := "%%" + rest;
    assert t[0] == '%' && t[1] == '%';
    assert t[2..] == rest;
  }

  /** `%%s` is the text "%s": the escape is read first, so no argument is taken. */
  lemma {:induction false} EscapedPlaceholderIsText(args: seq<string>)
    ensures Format("%%s", args) == Some("%s")
  {
    FormatEscape("s", args);
    assert "%%" + "s" == "%%s";
    var t := "s";
    assert t[0] == 's' && t[1..] == "";
    assert Format(t, args) == Prepend([t[0]], Format(t[1..], args));
    assert Format("", args) == Some("");
    assert [t[0]] + "" == "s";
    assert Format("%%s", args) == Prepend("%", Some("s"));
    assert "%" + "s" == "%s";
  }

  /** A conversion other than `%s` or `%%`, such as `%d`, makes `String.format` fail. */
  lemma {:induction false} FormatRejectsOtherConversions(c: char, rest: string, args: seq<string>)
    requires c != 's' && c != '%'
    ensures Format(['%', c] + rest, args).None?
  {
    var t := ['%', c] + rest;
    assert t[0] == '%' && t[1] == c;
  }

  /** Text without '%' passes through `Format` unchanged. */
  lemma {:induction false} FormatCopiesLiteral(p: string, rest: string, args: seq<string>)
    requires NoPercent(p)
    ensures Format(p + rest, args) == Prepend(p, Format(rest, args))
    decreases |p|
  {
    if |p| == 0 {
      assert p + rest == rest;
      match Format(rest, args)
      case Some(v) => assert p + v == v;
      case None =>
    } else {
      var t := p + rest;
      assert p[0] in p;
      assert t[0] == p[0];
      assert t[1..] == p[1..] + rest;
      FormatCopiesLiteral(p[1..], rest, args);
      match Format(rest, args)
      case Some(v) => assert [p[0]] + (p[1..] + v) == p + v;
      case None =>
    }
  }

  /** Filling a two-placeholder template: the first `%s` takes `a`, the second `b`. */
  lemma {:induction false} FormatTwo(p: string, m: string, s: string, a: string, b: string)
    requires NoPercent(p) && NoPercent(m) && NoPercent(s)
    ensures Format(p + "%s" + m + "%s" + s, [a, b]) == Some(p + a + m + b + s)
  {
    var t1 := "%s" + (m + "%s" + s);
    FormatOne(m, s, b);
    FormatPlaceholder(m + "%s" + s, a, [b]);
    assert [a] + [b] == [a, b];
    FormatCopiesLiteral(p, t1, [a, b]);
    assert p + "%s" + m + "%s" + s == p + t1;
    assert p + (a + (m + b + s)) == p + a + m + b + s;
  }

  /** Filling a one-placeholder template. */
  lemma {:induction false} FormatOne(m: string, s: string, b: string)
    requires NoPercent(m) && NoPercent(s)
    ensures Format(m + "%s" + s, [b]) == Some(m + b + s)
  {
    FormatLiteral(s);
    FormatPlaceholder(s, b, []);
    assert [b] + [] == [b];
    FormatCopiesLiteral(m, "%s" + s, [b]);
    assert m + "%s" + s == m + ("%s" + s);
    assert m + (b + s) == m + b + s;
  }

  /** Text without '%' formats to itself. */
  lemma {:induction false} FormatLiteral(s: string)
    requires NoPercent(s)
    ensures Format(s, []) == Some(s)
  {
    assert s + "" == s;
    FormatCopiesLiteral(s, "", []);
  }

  /** A leading `%s` consumes the first argument. */
  lemma {:induction false} FormatPlaceholder(rest: string, a: string, args: seq<string>)
    ensures Format("%s" + rest, [a] + args) == Prepend(a, Format(rest, args))
  {
    var t := "%s" + rest;
    assert t[0] == '%' && t[1] == 's';
    assert t[2..] == rest;
    assert ([a] + args)[1..] == args;
  }
}
