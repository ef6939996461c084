/**
 * The text of a pattern-language struct or union declaration, as the script handler emits it,
 * and a reader for that text. The reader is the partner of the emitter: every declaration whose
 * names are printable reads back as itself, one line per member in declaration order.
 */
module PatternText {
  import opened Common

  /** One member of a declaration: the resolved type name and the member's own name. */
  datatype Member = Member(typeName: string, name: string)

  /** A struct or union declaration: its keyword, its type name and its members in order. */
  datatype Declaration = Declaration(keyword: string, typeName: string, members: seq<Member>)

  /** The opening line, without its newline: `<keyword> <TypeName> {`. */
  function HeaderLine(keyword: string, typeName: string): string
  {
    keyword + " " + typeName + " {"
  }

  /** A member line, without its newline: three spaces, the type name, a space, the name, `;`. */
  function MemberLine(m: Member): string
  {
    "   " + m.typeName + " " + m.name + ";"
  }

  /** The closing line, without its newline. */
  const FOOTER_LINE: string := "};"

  /** The member lines of a body, each followed by a newline, appended member after member. */
  function Body(members: seq<Member>): string
  {
    if members == [] then ""
    else Body(members[..|members| - 1]) + MemberLine(members[|members| - 1]) + "\n"
  }

  /** The whole declaration text, as the generator builds it. */
  function DeclarationText(d: Declaration): string
  {
    HeaderLine(d.keyword, d.typeName) + "\n" + Body(d.members) + FOOTER_LINE + "\n"
  }

  /** The member lines of a declaration, without newlines. */
  function MemberLines(members: seq<Member>): (lines: seq<string>)
    ensures |lines| == |members|
    ensures forall k :: 0 <= k < |members| ==> lines[k] == MemberLine(members[k])
  {
    seq(|members|, k requires 0 <= k < |members| => MemberLine(members[k]))
  }

  /** Lines joined into text, each followed by a newline. */
  function JoinLines(lines: seq<string>): string
  {
    if lines == [] then "" else lines[0] + "\n" + JoinLines(lines[1..])
  }

  /** The index of the first `c` in `s`, or `|s|` when there is none. */
  function IndexOf(s: string, c: char): (n: nat)
    ensures n <= |s|
    ensures forall i :: 0 <= i < n ==> s[i] != c
    ensures n < |s| ==> s[n] == c
  {
    if s == [] then 0 else if s[0] == c then 0 else 1 + IndexOf(s[1..], c)
  }

  /** The newline-separated lines of a text; a last line without a newline still counts. */
  function SplitLines(s: string): seq<string>
    decreases |s|
  {
    if s == [] then []
    else
      var n := IndexOf(s, '\n');
      if n == |s| then [s] else [s[..n]] + SplitLines(s[n + 1..])
  }

  /** The text before the first space and the text after it, if there is a space. */
  function SplitAtSpace(s: string): Option<(string, string)>
  {
    var n := IndexOf(s, ' ');
    if n == |s| then None else Some((s[..n], s[n + 1..]))
  }

  /** Reads `<keyword> <TypeName> {` back into its keyword and type name. */
  function ParseHeaderLine(line: string): Option<(string, string)>
  {
    if |line| >= 2 && line[|line| - 2..] == " {" then SplitAtSpace(line[..|line| - 2]) else None
  }

  /** Reads a member line back into its member. */
  function ParseMemberLine(line: string): Option<Member>
  {
    if |line| >= 4 && line[..3] == "   " && line[|line| - 1] == ';' then
      match SplitAtSpace(line[3..|line| - 1])
      case None => None
      case Some((t, m)) => Some(Member(t, m))
    else None
  }

  /** Reads every line as a member line, failing if any line is not one. */
  function ParseMemberLines(lines: seq<string>): Option<seq<Member>>
  {
    if lines == [] then Some([])
    else
      match (ParseMemberLine(lines[0]), ParseMemberLines(lines[1..]))
      case (Some(m), Some(ms)) => Some([m] + ms)
      case _ => None
  }

  /** Reads a declaration text: a header line, member lines and the closing line. */
  function ParseDeclaration(text: string): Option<Declaration>
  {
    var lines := SplitLines(text);
    if |lines| < 2 || lines[|lines| - 1] != FOOTER_LINE then None
    else
      match (ParseHeaderLine(lines[0]), ParseMemberLines(lines[1..|lines| - 1]))
      case (Some((keyword, typeName)), Some(members)) => Some(Declaration(keyword, typeName, members))
      case _ => None
  }

  /** A member prints unambiguously: no newline anywhere, no space in its type name. */
  predicate PrintableMember(m: Member)
  {
    ' ' !in m.typeName && '\n' !in m.typeName && '\n' !in m.name
  }

  /** A declaration prints unambiguously: no newline anywhere, no space in the keyword or a member type. */
  predicate Printable(d: Declaration)
  {
    && ' ' !in d.keyword && '\n' !in d.keyword && '\n' !in d.typeName
    && forall k :: 0 <= k < |d.members| ==> PrintableMember(d.members[k])
  }

  lemma {:induction false} JoinLinesAppend(a: seq<string>, b: seq<string>)
    ensures JoinLines(a + b) == JoinLines(a) + JoinLines(b)
  {
    if a == [] {
      assert a + b == b;
    } else {
      assert (a + b)[1..] == a[1..] + b;
      JoinLinesAppend(a[1..], b);
    }
  }

  /** The body is exactly the member lines, one per member, in declaration order. */
  lemma {:induction false} BodyIsMemberLines(members: seq<Member>)
    ensures Body(members) == JoinLines(MemberLines(members))
  {
    if members != [] {
      var init := members[..|members| - 1];
      var last := members[|members| - 1];
      BodyIsMemberLines(init);
      JoinLinesAppend(MemberLines(init), [MemberLine(last)]);
      assert MemberLines(init) + [MemberLine(last)] == MemberLines(members);
      assert JoinLines([MemberLine(last)]) == MemberLine(last) + "\n";
    }
  }

  /** The declaration text is the header line, the member lines in order and the closing line. */
  lemma DeclarationLines(d: Declaration)
    ensures DeclarationText(d) == JoinLines([HeaderLine(d.keyword, d.typeName)] + MemberLines(d.members) + [FOOTER_LINE])
  {
    var header := HeaderLine(d.keyword, d.typeName);
    var body := MemberLines(d.members);
    BodyIsMemberLines(d.members);
    JoinLinesAppend([header], body);
    JoinLinesAppend([header] + body, [FOOTER_LINE]);
    assert JoinLines([header]) == header + "\n";
    assert JoinLines([FOOTER_LINE]) == FOOTER_LINE + "\n";
  }

  /** The first `c` of `a + [c] + rest` is the one after `a` when `a` holds none. */
  lemma IndexOfAfter(a: string, c: char, rest: string)
    requires c !in a
    ensures IndexOf(a + [c] + rest, c) == |a|
  {
    var s := a + [c] + rest;
    assert s[|a|] == c;
    assert forall i :: 0 <= i < |a| ==> s[i] == a[i];
  }

  /** Splitting joined lines gives the lines back, when none of them holds a newline. */
  lemma {:induction false} SplitJoinLines(lines: seq<string>)
    requires forall k :: 0 <= k < |lines| ==> '\n' !in lines[k]
    ensures SplitLines(JoinLines(lines)) == lines
  {
    if lines != [] {
      var rest := JoinLines(lines[1..]);
      var s := JoinLines(lines);
      assert s == lines[0] + ['\n'] + rest;
      IndexOfAfter(lines[0], '\n', rest);
      assert s[..|lines[0]|] == lines[0];
      assert s[|lines[0]| + 1..] == rest;
      SplitJoinLines(lines[1..]);
    }
  }

  lemma SplitAtSpaceJoin(a: string, b: string)
    requires ' ' !in a
    ensures SplitAtSpace(a + " " + b) == Some((a, b))
  {
    var s := a + " " + b;
    IndexOfAfter(a, ' ', b);
    assert s[..|a|] == a;
    assert s[|a| + 1..] == b;
  }

  lemma ParseMemberLineInverts(m: Member)
    requires PrintableMember(m)
    ensures ParseMemberLine(MemberLine(m)) == Some(m)
  {
    var line := MemberLine(m);
    assert line[..3] == "   ";
    assert line[3..|line| - 1] == m.typeName + " " + m.name;
    SplitAtSpaceJoin(m.typeName, m.name);
  }

  lemma {:induction false} ParseMemberLinesInverts(members: seq<Member>)
    requires forall k :: 0 <= k < |members| ==> PrintableMember(members[k])
    ensures ParseMemberLines(MemberLines(members)) == Some(members)
  {
    if members != [] {
      ParseMemberLineInverts(members[0]);
      assert MemberLines(members)[1..] == MemberLines(members[1..]);
      ParseMemberLinesInverts(members[1..]);
      assert [members[0]] + members[1..] == members;
    }
  }

  /**
   * Reading back an emitted declaration recovers its keyword, its type name and every member,
   * with the member's type name and name, in declaration order.
   */
  lemma DeclarationRoundTrip(d: Declaration)
    requires Printable(d)
    ensures ParseDeclaration(DeclarationText(d)) == Some(d)
  {
    var header := HeaderLine(d.keyword, d.typeName);
    var body := MemberLines(d.members);
    var lines := [header] + body + [FOOTER_LINE];
    DeclarationLines(d);
    forall k | 0 <= k < |lines|
      ensures '\n' !in lines[k]
    {
      if 0 < k < |lines| - 1 {
        assert lines[k] == MemberLine(d.members[k - 1]);
        assert PrintableMember(d.members[k - 1]);
      }
    }
    SplitJoinLines(lines);
    assert lines[1..|lines| - 1] == body;
    ParseMemberLinesInverts(d.members);
    assert header[..|header| - 2] == d.keyword + " " + d.typeName;
    SplitAtSpaceJoin(d.keyword, d.typeName);
  }

  /** A declaration without members has an empty body between its opening and closing lines. */
  lemma EmptyDeclaration(keyword: string, typeName: string)
    ensures DeclarationText(Declaration(keyword, typeName, [])) == keyword + " " + typeName + " {\n};\n"
  {
  }
}
