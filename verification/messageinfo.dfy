/** A message code with argument codes (lang/MessageInfo.java). The message source that
    resolves codes to text (a Spring `MessageSourceAccessor`) is a parameter. */
module MessageInfo {
  import opened Wrappers

  /** An argument code; Java lets an entry be null. */
  type ArgCode = Option<string>

  /** The `List<String>` held in `args`: `Arrays.asList` makes a fixed-size list, whose `add`
      throws `UnsupportedOperationException`; `new ArrayList` makes a growable one. */
  datatype ArgList = ArgList(items: seq<ArgCode>, growable: bool)

  /** The message source: `getMessage(code)` for one argument code, and
      `getMessage(code, args)` for the message itself (null arguments allowed). */
  datatype Accessor = Accessor(lookup: ArgCode -> string, format: (Option<string>, Option<seq<string>>) -> string)

  /** What `getArguments` yields: null for a null or empty list, otherwise every code looked
      up, in order. */
  function Arguments(lookup: ArgCode -> string, args: Option<ArgList>): (r: Option<seq<string>>)
    ensures r.None? <==> args.None? || args.value.items == []
    ensures r.Some? ==>
      |r.value| == |args.value.items| && forall i :: 0 <= i < |r.value| ==> r.value[i] == lookup(args.value.items[i])
  {
    if args.None? || args.value.items == [] then None
    else Some(seq(|args.value.items|, i requires 0 <= i < |args.value.items| => lookup(args.value.items[i])))
  }

  /** `add(argCode)` on a list, or `UnsupportedOperation` on a fixed-size one. */
  function Append(list: ArgList, argCode: ArgCode): (r: Result<ArgList>)
    ensures r.Ok? <==> list.growable
    ensures r.Ok? ==> r.value.items == list.items + [argCode] && r.value.growable
    ensures r.Fail? ==> r.error == UnsupportedOperation
  {
    if list.growable then Ok(ArgList(list.items + [argCode], true)) else Fail(UnsupportedOperation)
  }

  /** Appending codes one at a time keeps them in call order. */
  lemma {:induction false} AppendInOrder(list: ArgList, codes: seq<ArgCode>)
    requires list.growable
    ensures AppendAll(list, codes) == Ok(ArgList(list.items + codes, true))
    decreases |codes|
  {
    if codes != [] {
      var next := ArgList(list.items + [codes[0]], true);
      assert Append(list, codes[0]) == Ok(next);
      AppendInOrder(next, codes[1..]);
      assert next.items + codes[1..] == list.items + codes;
    } else {
      assert list.items + codes == list.items;
    }
  }

  /** `addArgCode` called once per code, stopping at the first failure. */
  function AppendAll(list: ArgList, codes: seq<ArgCode>): Result<ArgList>
    decreases |codes|
  {
    if codes == [] then Ok(list)
    else
      var next :- Append(list, codes[0]);
      AppendAll(next, codes[1..])
  }

  class MessageInfo {
    var code: Option<string>
    var args: Option<ArgList>

    /** `new MessageInfo()`: both fields null. */
    constructor()
      ensures code.None? && args.None?
    {
      code := None;
      args := None;
    }

    /** `setCode(code)`. */
    method SetCode(code: Option<string>)
      modifies this
      ensures this.code == code && args == old(args)
    {
      this.code := code;
    }

    /** `setArgs(args)`. */
    method SetArgs(args: Option<ArgList>)
      modifies this
      ensures this.args == args && code == old(code)
    {
      this.args := args;
    }

    /** `addArgCode(argCode)`: a null list becomes a new growable list holding the code;
        otherwise the code is appended, which a fixed-size list refuses. */
    method AddArgCode(argCode: ArgCode) returns (r: Result<()>)
      modifies this
      ensures code == old(code)
      ensures old(args).None? ==> r == Ok(()) && args == Some(ArgList([argCode], true))
      ensures old(args).Some? ==>
        var appended := Append(old(args).value, argCode);
        (appended.Ok? ==> r == Ok(()) && args == Some(appended.value))
        && (appended.Fail? ==> r == Fail(UnsupportedOperation) && args == old(args))
    {
      if args.None? {
        args := Some(ArgList([], true));
        assert [] + [argCode] == [argCode];
      }
      var appended := Append(args.value, argCode);
      if appended.Fail? {
        return Fail(appended.error);
      }
      args := Some(appended.value);
      return Ok(());
    }

    /** `getArguments()`: a fresh array with one looked-up text per argument code, or null
        when there are none. */
    method GetArguments(accessor: Accessor) returns (arguments: array?<string>)
      ensures arguments == null <==> Arguments(accessor.lookup, args).None?
      ensures arguments != null ==> fresh(arguments) && arguments[..] == Arguments(accessor.lookup, args).value
    {
      if args.None? || |args.value.items| == 0 {
        return null;
      }
      var items := args.value.items;
      arguments := new string[|items|];
      var i := 0;
      while i < |items|
        invariant 0 <= i <= |items| && arguments.Length == |items|
        invariant forall j :: 0 <= j < i ==> arguments[j] == accessor.lookup(items[j])
      {
        arguments[i] := accessor.lookup(items[i]);
        i := i + 1;
      }
    }

    /** `getMessage()`: the code's message with the looked-up arguments. */
    method GetMessage(accessor: Accessor) returns (r: string)
      ensures r == accessor.format(code, Arguments(accessor.lookup, args))
    {
      var arguments := GetArguments(accessor);
      r := accessor.format(code, if arguments == null then None else Some(arguments[..]));
    }
  }

  /** `MessageInfo.build(code, args...)` as written: the varargs array is wrapped with
      `Arrays.asList`, a fixed-size list, and only when it is non-null and non-empty. */
  method Build(code: Option<string>, args: Option<seq<ArgCode>>) returns (m: MessageInfo)
    ensures fresh(m) && m.code == code
    ensures args.None? || args.value == [] ==> m.args.None?
    ensures args.Some? && args.value != [] ==> m.args == Some(ArgList(args.value, false))
  {
    m := new MessageInfo();
    m.SetCode(code);
    if args.Some? && |args.value| > 0 {
      m.SetArgs(Some(ArgList(args.value, false)));
    }
  }

  /** `build` as evidently intended: the codes copied into a growable list, so later
      `addArgCode` calls append to them. */
  method BuildGrowable(code: Option<string>, args: Option<seq<ArgCode>>) returns (m: MessageInfo)
    ensures fresh(m) && m.code == code
    ensures args.None? || args.value == [] ==> m.args.None?
    ensures args.Some? && args.value != [] ==> m.args == Some(ArgList(args.value, true))
  {
    m := new MessageInfo();
    m.SetCode(code);
    if args.Some? && |args.value| > 0 {
      m.SetArgs(Some(ArgList(args.value, true)));
    }
  }

  /** As written, adding a code to a message built with codes always fails. */
  method AddAfterBuild(code: Option<string>, first: ArgCode, next: ArgCode) returns (r: Result<()>, m: MessageInfo)
    ensures r == Fail(UnsupportedOperation)
    ensures m.args == Some(ArgList([first], false))
  {
    m := Build(code, Some([first]));
    r := m.AddArgCode(next);
  }

  /** With the growable list, the same call appends in order. */
  method AddAfterBuildGrowable(code: Option<string>, first: ArgCode, next: ArgCode) returns (r: Result<()>, m: MessageInfo)
    ensures r == Ok(())
    ensures m.args == Some(ArgList([first, next], true))
  {
    m := BuildGrowable(code, Some([first]));
    r := m.AddArgCode(next);
    assert [first] + [next] == [first, next];
  }
}
