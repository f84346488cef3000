/** A localisable message code with argument codes (lang/Msg.java): `MessageInfo` with a
    locale handed to the message source. The source's `getMessage(locale, code, args)` is a
    parameter. */
module Msg {
  import opened Wrappers
  import opened MessageInfo

  /** A `java.util.Locale`, by its language tag. */
  datatype Locale = Locale(tag: string)

  /** `MessageSourceAccessor.getMessage(locale, code, args)`; null locale and null arguments
      allowed. */
  type Resolve = (Option<Locale>, ArgCode, Option<seq<string>>) -> string

  /** What `getArguments(locale)` yields: each argument code resolved in `locale` with no
      arguments of its own, or null when there are none. */
  function LocaleArguments(resolve: Resolve, locale: Option<Locale>, args: Option<ArgList>): (r: Option<seq<string>>)
    ensures r.None? <==> args.None? || args.value.items == []
    ensures r.Some? ==>
      |r.value| == |args.value.items|
      && forall i :: 0 <= i < |r.value| ==> r.value[i] == resolve(locale, args.value.items[i], None)
  {
    Arguments(c => resolve(locale, c, None), args)
  }

  class Msg {
    var code: Option<string>
    var args: Option<ArgList>

    /** `new Msg()`: both fields null. */
    constructor()
      ensures code.None? && args.None?
    {
      code := None;
      args := None;
    }

    /** `setCode(code)`. */
    method SetCode(code: Option<string>)
      modifies this
      ensures this.code == code && args == old(args)
    {
      this.code := code;
    }

    /** `setArgs(args)`. */
    method SetArgs(args: Option<ArgList>)
      modifies this
      ensures this.args == args && code == old(code)
    {
      this.args := args;
    }

    /** `addArgCode(argCode)`: as in `MessageInfo`. */
    method AddArgCode(argCode: ArgCode) returns (r: Result<()>)
      modifies this
      ensures code == old(code)
      ensures old(args).None? ==> r == Ok(()) && args == Some(ArgList([argCode], true))
      ensures old(args).Some? ==>
        var appended := Append(old(args).value, argCode);
        (appended.Ok? ==> r == Ok(()) && args == Some(appended.value))
        && (appended.Fail? ==> r == Fail(UnsupportedOperation) && args == old(args))
    {
      if args.None? {
        args := Some(ArgList([], true));
        assert [] + [argCode] == [argCode];
      }
      var appended := Append(args.value, argCode);
      if appended.Fail? {
        return Fail(appended.error);
      }
      args := Some(appended.value);
      return Ok(());
    }

    /** `getArguments(locale)`: a fresh array with each code resolved in `locale`, or null
        when there are none. */
    method GetArgumentsIn(resolve: Resolve, locale: Option<Locale>) returns (arguments: array?<string>)
      ensures arguments == null <==> LocaleArguments(resolve, locale, args).None?
      ensures arguments != null ==> fresh(arguments) && arguments[..] == LocaleArguments(resolve, locale, args).value
    {
      if args.None? || |args.value.items| == 0 {
        return null;
      }
      var items := args.value.items;
      arguments := new string[|items|];
      var i := 0;
      while i < |items|
        invariant 0 <= i <= |items| && arguments.Length == |items|
        invariant forall j :: 0 <= j < i ==> arguments[j] == resolve(locale, items[j], None)
      {
        arguments[i] := resolve(locale, items[i], None);
        i := i + 1;
      }
    }

    /** `getArguments()`: `getArguments(null)`. */
    method GetArguments(resolve: Resolve) returns (arguments: array?<string>)
      ensures arguments == null <==> LocaleArguments(resolve, None, args).None?
      ensures arguments != null ==> fresh(arguments) && arguments[..] == LocaleArguments(resolve, None, args).value
    {
      arguments := GetArgumentsIn(resolve, None);
    }

    /** `getMessage(locale)`: the code resolved in `locale`, but with the arguments of
        `getArguments()`, which resolves them with no locale. */
    method GetMessageIn(resolve: Resolve, locale: Option<Locale>) returns (r: string)
      ensures r == resolve(locale, code, LocaleArguments(resolve, None, args))
    {
      var arguments := GetArguments(resolve);
      r := resolve(locale, code, if arguments == null then None else Some(arguments[..]));
    }

    /** `getMessage()`: `getMessage(null)`. */
    method GetMessage(resolve: Resolve) returns (r: string)
      ensures r == resolve(None, code, LocaleArguments(resolve, None, args))
    {
      r := GetMessageIn(resolve, None);
    }
  }

  /** `Msg.build(code, args...)`: as `MessageInfo.build`, a fixed-size `Arrays.asList` list
      set only for a non-null, non-empty array. */
  method Build(code: Option<string>, args: Option<seq<ArgCode>>) returns (m: Msg)
    ensures fresh(m) && m.code == code
    ensures args.None? || args.value == [] ==> m.args.None?
    ensures args.Some? && args.value != [] ==> m.args == Some(ArgList(args.value, false))
  {
    m := new Msg();
    m.SetCode(code);
    if args.Some? && |args.value| > 0 {
      m.SetArgs(Some(ArgList(args.value, false)));
    }
  }

  /** `build` as evidently intended: a growable copy of the codes. */
  method BuildGrowable(code: Option<string>, args: Option<seq<ArgCode>>) returns (m: Msg)
    ensures fresh(m) && m.code == code
    ensures args.None? || args.value == [] ==> m.args.None?
    ensures args.Some? && args.value != [] ==> m.args == Some(ArgList(args.value, true))
  {
    m := new Msg();
    m.SetCode(code);
    if args.Some? && |args.value| > 0 {
      m.SetArgs(Some(ArgList(args.value, true)));
    }
  }

  /** As written, adding a code to a message built with codes always fails, as in
      `MessageInfo`. */
  method AddAfterBuild(code: Option<string>, first: ArgCode, next: ArgCode) returns (r: Result<()>, m: Msg)
    ensures r == Fail(UnsupportedOperation)
    ensures m.args == Some(ArgList([first], false))
  {
    m := Build(code, Some([first]));
    r := m.AddArgCode(next);
  }

  /** With the growable list, the same call appends in order. */
  method AddAfterBuildGrowable(code: Option<string>, first: ArgCode, next: ArgCode) returns (r: Result<()>, m: Msg)
    ensures r == Ok(())
    ensures m.args == Some(ArgList([first, next], true))
  {
    m := BuildGrowable(code, Some([first]));
    r := m.AddArgCode(next);
    assert [first] + [next] == [first, next];
  }

  /** `getMessage(locale)` does not localise its arguments: whenever the source resolves an
      argument code differently in `locale`, the arguments it passes (those of
      `getArguments()`) differ from those of `getArguments(locale)`. */
  lemma MessageArgumentsNotLocalised(resolve: Resolve, args: Option<ArgList>, locale: Option<Locale>)
    requires args.Some? && args.value.items != []
    requires resolve(locale, args.value.items[0], None) != resolve(None, args.value.items[0], None)
    ensures LocaleArguments(resolve, None, args) != LocaleArguments(resolve, locale, args)
  {
    var expected := LocaleArguments(resolve, locale, args);
    assert expected.value[0] == resolve(locale, args.value.items[0], None);
  }
}
