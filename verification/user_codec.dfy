/** The text stored under the `user` key: `JSON.stringify({userId, name})`, and a parser
    that accepts exactly the texts the encoder writes. */
module UserCodec {
  import opened Optional

  /** The identity cached next to the tokens. */
  datatype UserInfo = UserInfo(userId: string, name: string)

  /** The body of a JSON string: a quote and a backslash are written with a backslash
      in front, every other character as itself. */
  function Escape(s: string): string {
    if s == [] then []
    else (if s[0] == '"' || s[0] == '\\' then ['\\', s[0]] else [s[0]]) + Escape(s[1..])
  }

  const UserIdPrefix := "{\"userId\":\""
  const NameInfix := ",\"name\":\""
  const Suffix := "}"

  /** `JSON.stringify({ userId, name })`; each string body ends at its closing quote. */
  function Stringify(u: UserInfo): string {
    UserIdPrefix + Escape(u.userId) + "\"" + NameInfix + Escape(u.name) + "\"" + Suffix
  }

  /** Reads the body of a JSON string up to its closing quote, undoing the escapes, and
      returns the text read with what follows the closing quote. */
  function ReadString(s: string): Option<(string, string)> {
    if s == [] then None
    else if s[0] == '"' then Some(([], s[1..]))
    else if s[0] == '\\' then
      if |s| >= 2 && (s[1] == '"' || s[1] == '\\') then
        match ReadString(s[2..])
        case None => None
        case Some(p) => Some(([s[1]] + p.0, p.1))
      else None
    else
      match ReadString(s[1..])
      case None => None
      case Some(p) => Some(([s[0]] + p.0, p.1))
  }

  /** `JSON.parse` restricted to the texts `Stringify` writes. */
  function Parse(s: string): Option<UserInfo> {
    if |s| < |UserIdPrefix| || s[..|UserIdPrefix|] != UserIdPrefix then None
    else match ReadString(s[|UserIdPrefix|..])
      case None => None
      case Some(first) =>
        var rest := first.1;
        if |rest| < |NameInfix| || rest[..|NameInfix|] != NameInfix then None
        else match ReadString(rest[|NameInfix|..])
          case None => None
          case Some(second) =>
            if second.1 == Suffix then Some(UserInfo(first.0, second.0)) else None
  }

  lemma {:induction false} ReadEscaped(x: string, rest: string)
    ensures ReadString(Escape(x) + "\"" + rest) == Some((x, rest))
  {
    if x == [] {
      assert Escape(x) + "\"" + rest == "\"" + rest;
    } else {
      ReadEscaped(x[1..], rest);
      var head := if x[0] == '"' || x[0] == '\\' then ['\\', x[0]] else [x[0]];
      assert Escape(x) + "\"" + rest == head + (Escape(x[1..]) + "\"" + rest);
      assert [x[0]] + x[1..] == x;
    }
  }

  lemma {:induction false} ReadStringSound(s: string)
    ensures ReadString(s).Some? ==> s == Escape(ReadString(s).value.0) + "\"" + ReadString(s).value.1
  {
    if s == [] || s[0] == '"' {
    } else if s[0] == '\\' {
      if |s| >= 2 && (s[1] == '"' || s[1] == '\\') {
        ReadStringSound(s[2..]);
        if ReadString(s[2..]).Some? {
          var p := ReadString(s[2..]).value;
          var x := [s[1]] + p.0;
          assert x[1..] == p.0;
          assert Escape(x) == ['\\', s[1]] + Escape(p.0);
          assert s == ['\\', s[1]] + s[2..];
        }
      }
    } else {
      ReadStringSound(s[1..]);
      if ReadString(s[1..]).Some? {
        var p := ReadString(s[1..]).value;
        var x := [s[0]] + p.0;
        assert x[1..] == p.0;
        assert Escape(x) == [s[0]] + Escape(p.0);
        assert s == [s[0]] + s[1..];
      }
    }
  }

  lemma DropPrefix(p: string, t: string)
    ensures (p + t)[..|p|] == p && (p + t)[|p|..] == t
  {
  }

  /** Parsing what was stringified gives the identity back. */
  lemma ParseStringify(u: UserInfo)
    ensures Parse(Stringify(u)) == Some(u)
  {
    var b := Escape(u.name);
    var rest := NameInfix + (b + "\"" + Suffix);
    var tail := Escape(u.userId) + "\"" + rest;
    StringifyNested(u);
    DropPrefix(UserIdPrefix, tail);
    ReadEscaped(u.userId, rest);
    DropPrefix(NameInfix, b + "\"" + Suffix);
    ReadEscaped(u.name, Suffix);
  }

  /** A text parses only if it is exactly what `Stringify` writes for the result. */
  lemma ParseSound(s: string)
    ensures Parse(s).Some? ==> Stringify(Parse(s).value) == s
  {
    if Parse(s).Some? {
      var tail := s[|UserIdPrefix|..];
      var first := ReadString(tail).value;
      var tail2 := first.1[|NameInfix|..];
      var second := ReadString(tail2).value;
      assert Parse(s) == Some(UserInfo(first.0, second.0));
      ReadStringSound(tail);
      ReadStringSound(tail2);
      var a, b := Escape(first.0), Escape(second.0);
      assert s == UserIdPrefix + tail;
      assert first.1 == NameInfix + tail2;
      assert tail2 == b + "\"" + Suffix;
      assert tail == a + "\"" + (NameInfix + (b + "\"" + Suffix));
      StringifyNested(UserInfo(first.0, second.0));
    }
  }

  lemma StringifyNested(u: UserInfo)
    ensures Stringify(u)
         == UserIdPrefix + (Escape(u.userId) + "\"" + (NameInfix + (Escape(u.name) + "\"" + Suffix)))
  {
  }

  /** Distinct identities are stored as distinct texts. */
  lemma StringifyInjective(u: UserInfo, v: UserInfo)
    ensures Stringify(u) == Stringify(v) ==> u == v
  {
    ParseStringify(u);
    ParseStringify(v);
  }
}
