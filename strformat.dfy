/**
 * The part of Python's `str.format` that the templates of `create`
 * (challenge_generator.py, lines 24-50, formatted at lines 86-95) use:
 * `{{` and `}}` stand for single braces and `{key}` is replaced by the
 * keyword argument `key`.
 */
module StrFormat {
  import opened Common
  import opened Strings

  /** Why `str.format` raises, for the fields this model covers. */
  datatype FormatError =
    | SingleCloseBrace              // `ValueError`: a `}` that is not part of `}}`
    | UnclosedField                 // `ValueError`: a `{` with no `}` after it
    | UnsupportedField(field: string)  // a field other than a plain keyword name
    | MissingKey(key: string)       // `KeyError`: no keyword argument of that name

  predicate IsLetter(c: char)
  {
    'a' <= c <= 'z' || 'A' <= c <= 'Z' || c == '_'
  }

  /** A field name that `str.format` looks up as a keyword argument and nothing else. */
  predicate PlainKey(k: string)
  {
    k != [] && IsLetter(k[0]) &&
    forall i :: 0 <= i < |k| ==> IsLetter(k[i]) || '0' <= k[i] <= '9'
  }

  /** A field name as the templates use it. */
  type Key = k: string | PlainKey(k) witness "k"

  /** Text that `str.format` copies unchanged. */
  predicate NoBraces(s: string)
  {
    forall i :: 0 <= i < |s| ==> s[i] != '{' && s[i] != '}'
  }

  /** Literal template text: copied unchanged by `str.format`. */
  type PlainText = s: string | NoBraces(s) witness ""

  /** The replacement field `{k}` as written in a template. */
  function Field(k: string): string
  {
    "{" + k + "}"
  }

  /** `p` put in front of a successful result. */
  function Prefix(p: string, r: Result<string, FormatError>): (q: Result<string, FormatError>)
    ensures q.Success? <==> r.Success?
    ensures r.Success? ==> q.value == p + r.value
    ensures r.Failure? ==> q == r
  {
    match r
    case Success(v) => Success(p + v)
    case Failure(e) => Failure(e)
  }

  /** Putting `q`, then `p` in front is putting `p + q` in front. */
  lemma PrefixPrefix(p: string, q: string, r: Result<string, FormatError>)
    ensures Prefix(p, Prefix(q, r)) == Prefix(p + q, r)
  {
    if r.Success? {
      assert p + (q + r.value) == p + q + r.value;
    }
  }

  /** `s.format(**kw)`, read from left to right; the first problem met is the one reported. */
  function Format(s: string, kw: map<string, string>): (r: Result<string, FormatError>)
    ensures r.Failure? && r.error.MissingKey? ==> PlainKey(r.error.key) && r.error.key !in kw
    ensures r.Failure? && r.error.UnsupportedField? ==> !PlainKey(r.error.field)
    ensures s == [] ==> r == Success([])
    decreases |s|
  {
    if s == [] then Success([])
    else if s[0] == '{' then
      if |s| >= 2 && s[1] == '{' then Prefix("{", Format(s[2..], kw))
      else
        match IndexOf(s[1..], '}')
        case None => Failure(UnclosedField)
        case Some(j) =>
          var key := s[1..j + 1];
          if !PlainKey(key) then Failure(UnsupportedField(key))
          else if key !in kw then Failure(MissingKey(key))
          else Prefix(kw[key], Format(s[j + 2..], kw))
    else if s[0] == '}' then
      if |s| >= 2 && s[1] == '}' then Prefix("}", Format(s[2..], kw))
      else Failure(SingleCloseBrace)
    else Prefix([s[0]], Format(s[1..], kw))
  }

  /** Text without braces comes through `str.format` unchanged, whatever the arguments. */
  lemma {:induction false} FormatLiteral(s: string, kw: map<string, string>)
    requires NoBraces(s)
    ensures Format(s, kw) == Success(s)
    decreases |s|
  {
    if s != [] {
      FormatLiteral(s[1..], kw);
      assert [s[0]] + s[1..] == s;
    }
  }

  /** `{{` at the front stands for `{`. */
  lemma FormatOpenBrace(b: string, kw: map<string, string>)
    ensures Format("{{" + b, kw) == Prefix("{", Format(b, kw))
  {
    assert ("{{" + b)[2..] == b;
  }

  /** `}}` at the front stands for `}`. */
  lemma FormatCloseBrace(b: string, kw: map<string, string>)
    ensures Format("}}" + b, kw) == Prefix("}", Format(b, kw))
  {
    assert ("}}" + b)[2..] == b;
  }

  /** A `}` that does not begin `}}` makes `str.format` raise. */
  lemma FormatLoneCloseBrace(b: string, kw: map<string, string>)
    requires b == [] || b[0] != '}'
    ensures Format("}" + b, kw) == Failure(SingleCloseBrace)
  {
  }

  /** Where the field `{k}` at the front of `"{" + k + "}" + b` ends. */
  lemma FieldEnd(k: string, b: string)
    requires PlainKey(k)
    ensures IndexOf(k + "}" + b, '}') == Some(|k|)
  {
    var s := k + "}" + b;
    forall i | 0 <= i < |k| ensures s[i] != '}' {
      assert s[i] == k[i];
    }
    IndexOfIs(s, '}', |k|);
  }

  /** The field `{k}` at the front is replaced by `kw[k]`, or raises `KeyError` when `k` is missing. */
  lemma FormatField(k: string, b: string, kw: map<string, string>)
    requires PlainKey(k)
    ensures k in kw ==> Format(Field(k) + b, kw) == Prefix(kw[k], Format(b, kw))
    ensures k !in kw ==> Format(Field(k) + b, kw) == Failure(MissingKey(k))
  {
    var s := Field(k) + b;
    assert s[1..] == k + "}" + b;
    FieldEnd(k, b);
    assert s[1..|k| + 1] == k;
    assert s[|k| + 2..] == b;
  }

  /**
   * `str.format` works piece by piece: once `a` formats without error, the
   * formatting of `a + b` is that of `a` followed by that of `b`.
   */
  lemma {:induction false} FormatConcat(a: string, b: string, kw: map<string, string>)
    requires Format(a, kw).Success?
    ensures Format(a + b, kw) == Prefix(Format(a, kw).value, Format(b, kw))
    decreases |a|
  {
    var s := a + b;
    if a == [] {
      assert s == b;
      if Format(b, kw).Success? {
        assert a + Format(b, kw).value == Format(b, kw).value;
      }
    } else if a[0] == '{' && |a| >= 2 && a[1] == '{' {
      assert s[0] == '{' && s[1] == '{';
      assert s[2..] == a[2..] + b;
      FormatConcat(a[2..], b, kw);
      PrefixPrefix("{", Format(a[2..], kw).value, Format(b, kw));
    } else if a[0] == '{' {
      var j := IndexOf(a[1..], '}').value;
      assert s[1..] == a[1..] + b;
      IndexOfPrefix(a[1..], b, '}');
      assert j + 2 <= |a|;
      assert s[1..j + 1] == a[1..j + 1];
      assert s[j + 2..] == a[j + 2..] + b;
      var key := a[1..j + 1];
      FormatConcat(a[j + 2..], b, kw);
      PrefixPrefix(kw[key], Format(a[j + 2..], kw).value, Format(b, kw));
    } else if a[0] == '}' {
      assert s[0] == '}' && s[1] == '}';
      assert s[2..] == a[2..] + b;
      FormatConcat(a[2..], b, kw);
      PrefixPrefix("}", Format(a[2..], kw).value, Format(b, kw));
    } else {
      assert s[0] == a[0];
      assert s[1..] == a[1..] + b;
      FormatConcat(a[1..], b, kw);
      PrefixPrefix([a[0]], Format(a[1..], kw).value, Format(b, kw));
    }
  }

  /** Formatting brace-free text after a piece that formats. */
  lemma FormatThenText(a: string, t: string, kw: map<string, string>)
    requires Format(a, kw).Success? && NoBraces(t)
    ensures Format(a + t, kw) == Success(Format(a, kw).value + t)
  {
    FormatConcat(a, t, kw);
    FormatLiteral(t, kw);
  }

  /** Formatting the escaped pair `{{}}` after a piece that formats gives `{}`. */
  lemma FormatThenEscapedPair(a: string, kw: map<string, string>)
    requires Format(a, kw).Success?
    ensures Format(a + "{{}}", kw) == Success(Format(a, kw).value + "{}")
  {
    FormatConcat(a, "{{}}", kw);
    FormatOpenBrace("}}", kw);
    FormatCloseBrace([], kw);
    assert "{{" + "}}" == "{{}}";
    assert "}}" + [] == "}}";
    assert "}" + [] == "}";
    assert "{" + "}" == "{}";
  }

  /** Formatting the field `{k}` after a piece that formats. */
  lemma FormatThenField(a: string, k: string, kw: map<string, string>)
    requires Format(a, kw).Success? && PlainKey(k) && k in kw
    ensures Format(a + Field(k), kw) == Success(Format(a, kw).value + kw[k])
  {
    FormatConcat(a, Field(k), kw);
    FormatField(k, [], kw);
    assert Field(k) + [] == Field(k);
    assert kw[k] + [] == kw[k];
  }

  /** Two pieces that format without error format together as their results joined. */
  lemma FormatAppend(a: string, b: string, kw: map<string, string>)
    requires Format(a, kw).Success? && Format(b, kw).Success?
    ensures Format(a + b, kw) == Success(Format(a, kw).value + Format(b, kw).value)
  {
    FormatConcat(a, b, kw);
  }

  /** A field between two brace-free texts is replaced by its value. */
  lemma FormatTextFieldText(a: string, k: string, b: string, kw: map<string, string>)
    requires NoBraces(a) && NoBraces(b) && PlainKey(k) && k in kw
    ensures Format(a + Field(k) + b, kw) == Success(a + kw[k] + b)
  {
    FormatLiteral(a, kw);
    FormatThenField(a, k, kw);
    FormatThenText(a + Field(k), b, kw);
  }

  /** The escaped pair `{{}}` between two brace-free texts becomes `{}`. */
  lemma FormatTextPairText(a: string, b: string, kw: map<string, string>)
    requires NoBraces(a) && NoBraces(b)
    ensures Format(a + "{{}}" + b, kw) == Success(a + "{}" + b)
  {
    FormatLiteral(a, kw);
    FormatThenEscapedPair(a, kw);
    FormatThenText(a + "{{}}", b, kw);
  }
}
