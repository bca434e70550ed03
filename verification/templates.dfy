/**
 * Python `str.format` templates with named fields, as the localized messages and the
 * suggestion prompts use them. The wording of the program's templates is not modelled:
 * each template is kept as its sequence of literal runs and `{name}` fields.
 */
module Templates {
  import opened Common

  /** A run of literal text (as it reads after formatting), or a `{name}` field. */
  datatype Piece = Lit(text: string) | Field(name: string)

  type Template = seq<Piece>

  /** The field names a template refers to. */
  function Fields(t: Template): (r: set<string>)
    ensures forall i | 0 <= i < |t| && t[i].Field? :: t[i].name in r
    ensures forall n | n in r :: exists i | 0 <= i < |t| :: t[i] == Field(n)
  {
    if |t| == 0 then {}
    else (if t[0].Field? then {t[0].name} else {}) + Fields(t[1..])
  }

  /** A literal run as written in the template source: each brace doubled. */
  function Escape(s: string): (r: string)
    ensures |r| >= |s|
  {
    if |s| == 0 then ""
    else (if s[0] == '{' || s[0] == '}' then [s[0], s[0]] else [s[0]]) + Escape(s[1..])
  }

  /** The template text itself, as returned when it is not formatted. */
  function Verbatim(t: Template): string {
    if |t| == 0 then ""
    else
      (match t[0]
       case Lit(s) => Escape(s)
       case Field(n) => "{" + n + "}")
      + Verbatim(t[1..])
  }

  /** `template.format(**args)`: every field replaced by its argument; a field without an
      argument raises `KeyError`, reported here as the missing name. */
  function Format(t: Template, args: map<string, string>): (r: Result<string, string>)
    ensures r.Success? <==> Fields(t) <= args.Keys
    ensures r.Failure? ==> r.error in Fields(t) && r.error !in args
  {
    if |t| == 0 then Success("")
    else
      match Format(t[1..], args)
      case Failure(n) =>
        if t[0].Field? && t[0].name !in args then Failure(t[0].name) else Failure(n)
      case Success(rest) =>
        match t[0]
        case Lit(s) => Success(s + rest)
        case Field(n) => if n in args then Success(args[n] + rest) else Failure(n)
  }

  /** Formatting a template without fields or braces returns it unchanged. */
  lemma {:induction false} FormatPlain(t: Template, args: map<string, string>)
    requires forall i | 0 <= i < |t| :: t[i].Lit? && '{' !in t[i].text && '}' !in t[i].text
    ensures Format(t, args) == Success(Verbatim(t))
  {
    if |t| > 0 {
      FormatPlain(t[1..], args);
      EscapeBraceless(t[0].text);
    }
  }

  lemma {:induction false} EscapeBraceless(s: string)
    requires '{' !in s && '}' !in s
    ensures Escape(s) == s
  {
    if |s| > 0 {
      assert s[0] in s;
      assert '{' !in s[1..] && '}' !in s[1..] by {
        forall c | c in s[1..] ensures c in s { }
      }
      EscapeBraceless(s[1..]);
      assert s == [s[0]] + s[1..];
    }
  }

  /** A template `before{name}after` formats to `before + args[name] + after`. */
  lemma FormatOneField(before: string, name: string, after: string, args: map<string, string>)
    requires name in args
    ensures Format([Lit(before), Field(name), Lit(after)], args) == Success(before + args[name] + after)
  {
    var t := [Lit(before), Field(name), Lit(after)];
    assert t[1..] == [Field(name), Lit(after)];
    assert t[1..][1..] == [Lit(after)];
    assert t[1..][1..][1..] == [];
    assert Format([Lit(after)], args) == Success(after + "");
    assert after + "" == after;
    assert Format([Field(name), Lit(after)], args) == Success(args[name] + after);
    assert before + (args[name] + after) == before + args[name] + after;
  }

  /** A template `a{n1}b{n2}c` formats to `a + args[n1] + b + args[n2] + c`. */
  lemma FormatTwoFields(a: string, n1: string, b: string, n2: string, c: string, args: map<string, string>)
    requires n1 in args && n2 in args
    ensures Format([Lit(a), Field(n1), Lit(b), Field(n2), Lit(c)], args)
         == Success(a + args[n1] + b + args[n2] + c)
  {
    var t := [Lit(a), Field(n1), Lit(b), Field(n2), Lit(c)];
    var tail := b + args[n2] + c;
    FormatOneField(b, n2, c, args);
    assert t[1..][1..] == [Lit(b), Field(n2), Lit(c)];
    assert Format(t[1..], args) == Success(args[n1] + tail);
    assert Format(t, args) == Success(a + (args[n1] + tail));
    assert a + (args[n1] + tail) == a + args[n1] + b + args[n2] + c;
  }
}
