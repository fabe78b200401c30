/** The string filters a `->` applies (renderer/filters.go). Text is
    scanned as ASCII: case mapping and the whitespace test cover the
    ASCII letters and spaces. */
module Filters {
  import opened Wrappers
  import opened Strings
  import opened Decimal
  import opened Values

  /** How rendering can fail: an error value carrying its message, or a
      runtime panic. */
  datatype RenderError = Failed(message: string) | Panicked(reason: string)

  /** The strcase library's conversions, which are not part of this
      model: the filters that call them take them as given functions. */
  datatype Strcase = Strcase(
    toCamel: string -> string,
    toLowerCamel: string -> string,
    toKebab: string -> string,
    toSnake: string -> string)

  /** The names registered in filtersMap. */
  const FilterNames: set<string> :=
    {"upper", "lower", "pascal", "camel", "kebab", "snake", "capitalize", "title", "length", "trim"}

  /** capitalize: the first byte upper-cased, the rest unchanged. */
  function Capitalize(s: string): (r: string)
    requires |s| > 0
    ensures |r| == |s|
  {
    [ToUpper(s[0])] + s[1..]
  }

  /** Whether title upper-cases position i: a non-space character at the
      start or after whitespace. */
  predicate WordStart(s: string, i: nat)
    requires i < |s|
  {
    !IsAsciiSpace(s[i]) && (i == 0 || IsAsciiSpace(s[i - 1]))
  }

  function TitleChar(s: string, i: nat): char
    requires i < |s|
  {
    if WordStart(s, i) then ToUpper(s[i]) else s[i]
  }

  /** The loop of title as a function of the rest of the text and the
      prevSpace flag. */
  function TitleFrom(s: string, prevSpace: bool): (r: string)
    ensures |r| == |s|
    ensures forall i :: 0 <= i < |s| ==> r[i] == s[i] || r[i] == ToUpper(s[i])
    ensures forall i :: 0 <= i < |s| && IsAsciiSpace(s[i]) ==> r[i] == s[i]
  {
    if s == [] then ""
    else if IsAsciiSpace(s[0]) then [s[0]] + TitleFrom(s[1..], true)
    else if prevSpace then [ToUpper(s[0])] + TitleFrom(s[1..], false)
    else [s[0]] + TitleFrom(s[1..], false)
  }

  /** title. */
  function Title(s: string): (r: string)
    ensures |r| == |s|
  {
    TitleFrom(s, true)
  }

  /** strings.TrimSpace, ASCII part: leading then trailing whitespace
      removed. */
  function TrimLeft(s: string): (r: string)
    ensures |r| <= |s| && r == s[|s| - |r|..]
    ensures r == [] || !IsAsciiSpace(r[0])
    ensures forall i :: 0 <= i < |s| - |r| ==> IsAsciiSpace(s[i])
  {
    if s != [] && IsAsciiSpace(s[0]) then TrimLeft(s[1..]) else s
  }

  function TrimRight(s: string): (r: string)
    ensures |r| <= |s| && r == s[..|r|]
    ensures r == [] || !IsAsciiSpace(r[|r| - 1])
    ensures forall i :: |r| <= i < |s| ==> IsAsciiSpace(s[i])
  {
    if s != [] && IsAsciiSpace(s[|s| - 1]) then TrimRight(s[..|s| - 1]) else s
  }

  function TrimSpace(s: string): string {
    TrimRight(TrimLeft(s))
  }

  /** callFilter: the registered filter applied to the value, or the
      error naming an unknown filter. capitalize on empty text indexes
      past the end and panics. */
  function CallFilter(name: string, v: Value, lib: Strcase): (r: Result<Value, RenderError>)
    requires WellFormed(v)
    ensures r.Ok? ==> WellFormed(r.value)
  {
    var s := AsString(v);
    if name == "upper" then Ok(Str(UpperString(s)))
    else if name == "lower" then Ok(Str(LowerString(s)))
    else if name == "pascal" then Ok(Str(lib.toCamel(s)))
    else if name == "camel" then Ok(Str(lib.toLowerCamel(s)))
    else if name == "kebab" then Ok(Str(lib.toKebab(s)))
    else if name == "snake" then Ok(Str(lib.toSnake(s)))
    else if name == "capitalize" then
      if s == [] then Err(Panicked("index out of range")) else Ok(Str(Capitalize(s)))
    else if name == "title" then Ok(Str(Title(s)))
    else if name == "length" then Ok(Num(FromInt(|s|)))
    else if name == "trim" then Ok(Str(TrimSpace(s)))
    else Err(Failed("filter " + name + " is not declared"))
  }

  /** title as the source computes it: one pass with a prevSpace flag. */
  method TitleLoop(s: string) returns (r: string)
    ensures r == Title(s)
  {
    TitleChars(s);
    r := "";
    var prevSpace := true;
    for i := 0 to |s|
      invariant |r| == i
      invariant forall k :: 0 <= k < i ==> r[k] == TitleChar(s, k)
      invariant prevSpace == (i == 0 || IsAsciiSpace(s[i - 1]))
    {
      var c := s[i];
      if IsAsciiSpace(c) {
        prevSpace := true;
      } else if prevSpace {
        prevSpace := false;
        c := ToUpper(c);
      }
      r := r + [c];
    }
  }

  // ---------------------------------------------------------------
  // Properties
  // ---------------------------------------------------------------

  /** title upper-cases exactly the first character of each word. */
  lemma TitleChars(s: string)
    ensures forall i :: 0 <= i < |s| ==> Title(s)[i] == TitleChar(s, i)
  {
    forall i | 0 <= i < |s|
      ensures Title(s)[i] == TitleChar(s, i)
    {
      TitleFromChar(s, true, i);
    }
  }

  lemma {:induction false} TitleFromChar(s: string, prevSpace: bool, i: nat)
    requires i < |s|
    ensures TitleFrom(s, prevSpace)[i]
         == if !IsAsciiSpace(s[i]) && (if i == 0 then prevSpace else IsAsciiSpace(s[i - 1]))
            then ToUpper(s[i]) else s[i]
    decreases i
  {
    if i > 0 {
      TitleFromChar(s[1..], IsAsciiSpace(s[0]), i - 1);
    }
  }

  /** Applying title twice changes nothing more. */
  lemma TitleIdempotent(s: string)
    ensures Title(Title(s)) == Title(s)
  {
    var t := Title(s);
    TitleChars(s);
    TitleChars(t);
    forall i | 0 <= i < |s|
      ensures IsAsciiSpace(t[i]) == IsAsciiSpace(s[i])
    {
    }
    assert forall i :: 0 <= i < |s| ==> Title(t)[i] == t[i];
  }

  /** capitalize changes only the first character, and only a lower-case
      letter; applying it twice changes nothing more. */
  lemma CapitalizeFirstOnly(s: string)
    requires |s| > 0
    ensures Capitalize(s)[1..] == s[1..]
    ensures IsLower(s[0]) ==> IsUpper(Capitalize(s)[0])
    ensures !IsLower(s[0]) ==> Capitalize(s) == s
    ensures Capitalize(Capitalize(s)) == Capitalize(s)
  {
    if !IsLower(s[0]) {
      assert Capitalize(s) == [s[0]] + s[1..] == s;
    }
  }

  /** trim keeps a contiguous slice: only whitespace is removed at each
      end. */
  lemma TrimSpaceSlice(s: string)
    ensures exists a, b :: 0 <= a <= b <= |s| && TrimSpace(s) == s[a..b]
              && (forall i :: 0 <= i < a ==> IsAsciiSpace(s[i]))
              && (forall i :: b <= i < |s| ==> IsAsciiSpace(s[i]))
  {
    var l := TrimLeft(s);
    var r := TrimRight(l);
    var a := |s| - |l|;
    var b := a + |r|;
    assert TrimSpace(s) == r;
    assert r == s[a..b] by {
      assert l == s[a..] && r == l[..|r|];
      assert s[a..b] == s[a..][..|r|];
    }
    forall i | b <= i < |s|
      ensures IsAsciiSpace(s[i])
    {
      assert s[i] == l[i - a];
    }
    assert 0 <= a <= b <= |s| && TrimSpace(s) == s[a..b]
           && (forall i :: 0 <= i < a ==> IsAsciiSpace(s[i]))
           && (forall i :: b <= i < |s| ==> IsAsciiSpace(s[i]));
  }

  /** No whitespace is left at either end of trimmed text, so trimming
      again changes nothing. */
  lemma TrimSpaceIdempotent(s: string)
    ensures TrimSpace(s) == [] || (!IsAsciiSpace(TrimSpace(s)[0]) && !IsAsciiSpace(TrimSpace(s)[|TrimSpace(s)| - 1]))
    ensures TrimSpace(TrimSpace(s)) == TrimSpace(s)
  {
    var l := TrimLeft(s);
    var r := TrimRight(l);
    if r != [] {
      assert r[0] == l[0];
    }
    assert TrimLeft(r) == r;
    assert TrimRight(r) == r;
  }

  /** upper and lower are idempotent, and lower after upper is lower. */
  lemma CaseMapping(s: string)
    ensures UpperString(UpperString(s)) == UpperString(s)
    ensures LowerString(LowerString(s)) == LowerString(s)
    ensures LowerString(UpperString(s)) == LowerString(s)
  {
    assert forall i :: 0 <= i < |s| ==> UpperString(UpperString(s))[i] == UpperString(s)[i];
    assert forall i :: 0 <= i < |s| ==> LowerString(LowerString(s))[i] == LowerString(s)[i];
    assert forall i :: 0 <= i < |s| ==> LowerString(UpperString(s))[i] == LowerString(s)[i];
  }

  /** A name outside filtersMap is the "not declared" error; a registered
      name never is. Every filter but length yields text; length yields
      the byte count. */
  lemma FilterResults(name: string, v: Value, lib: Strcase)
    requires WellFormed(v)
    ensures CallFilter(name, v, lib) == Err(Failed("filter " + name + " is not declared"))
            <==> name !in FilterNames
    ensures CallFilter(name, v, lib).Ok? && name != "length" ==> CallFilter(name, v, lib).value.Str?
    ensures name == "length" ==> CallFilter(name, v, lib) == Ok(Num(FromInt(|AsString(v)|)))
    ensures CallFilter(name, v, lib).Err? && name in FilterNames ==>
              name == "capitalize" && AsString(v) == ""
  {
  }
}
