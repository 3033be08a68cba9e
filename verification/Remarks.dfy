/** What a COMMENT ON statement says. */
module Remarks {
  import opened Options
  import opened Scanning
  import opened Cursors
  import opened TableParser
  import opened Statements
  import opened KeyClauses

  /** `COMMENT ON TABLE name IS text`, or `COMMENT ON COLUMN ...`. */
  function RemarkTokens(onColumn: bool, name: seq<Token>, text: Token): seq<Token> {
    [Word("comment"), Word("on"), Word(if onColumn then "column" else "table")] + (Dotted(name) + [Word("is"), text])
  }

  lemma HeadRead(onColumn: bool, rest: seq<Token>, name: string, text: Token)
    requires QualifiedName(rest) == (Some(name), [Word("is"), text])
    ensures Commented([Word("comment"), Word("on"), Word(if onColumn then "column" else "table")] + rest)
      == if !text.Text? then Skipped
         else match CommentTarget(onColumn, name)
              case None => Skipped
              case Some((table, column)) => Remark(Comment(table, column, text.text))
  {
    hide QualifiedName, CommentTarget;
    var all := [Word("comment"), Word("on"), Word(if onColumn then "column" else "table")] + rest;
    var on := [Word("on"), Word(if onColumn then "column" else "table")] + rest;
    var kind := [Word(if onColumn then "column" else "table")] + rest;
    assert all[1..] == on && on[1..] == kind && kind[1..] == rest;
  }

  lemma RemarkIs(onColumn: bool, name: seq<Token>, text: Token)
    requires AreNames(name) && name != []
    ensures Classified(RemarkTokens(onColumn, name, text))
      == if !text.Text? then Skipped
         else match CommentTarget(onColumn, DottedText(name))
              case None => Skipped
              case Some((table, column)) => Remark(Comment(table, column, text.text))
  {
    hide Commented, Altered, Parsed, Dotted, QualifiedName, CommentTarget;
    var tail := [Word("is"), text];
    DottedRead(name, tail);
    HeadRead(onColumn, Dotted(name) + tail, DottedText(name), text);
    assert RemarkTokens(onColumn, name, text)[0] == Word("comment");
  }

  lemma TargetIs(name: string, table: string, column: string)
    ensures CommentTarget(true, name) == Some((table, Some(column))) <==> name == table + "." + column && '.' !in column
    ensures CommentTarget(true, name).None? <==> '.' !in name
  {
    var dot := LastDot(name);
    if dot.Some? {
      assert name == name[..dot.value] + "." + name[dot.value + 1..];
      assert '.' !in name[dot.value + 1..];
    }
    if name == table + "." + column && '.' !in column {
      assert name[|table|] == '.';
      assert forall i :: |table| < i < |name| ==> name[i] == column[i - |table| - 1];
      assert name[..|table|] == table && name[|table| + 1..] == column;
    }
  }

  /** A comment on a table is about the whole name; one on a column splits the
      name at its last dot, and says nothing when there is none. `IS NULL`, or
      anything but a text, says nothing. */
  lemma RemarkSays(onColumn: bool, name: seq<Token>, text: Token, table: string, column: Option<string>)
    requires AreNames(name) && name != []
    ensures var says := Classified(RemarkTokens(onColumn, name, text));
            && (says == Skipped <==> !text.Text? || (onColumn && '.' !in DottedText(name)))
            && (text.Text? ==>
                  (says == Remark(Comment(table, column, text.text)) <==>
                     if onColumn then column.Some? && DottedText(name) == table + "." + column.value && '.' !in column.value
                     else column.None? && table == DottedText(name)))
  {
    hide Classified, DottedText, RemarkTokens;
    RemarkIs(onColumn, name, text);
    if onColumn {
      hide CommentTarget;
      TargetIs(DottedText(name), table, if column.Some? then column.value else "");
      TargetHasColumn(DottedText(name));
    }
  }

  lemma TargetHasColumn(name: string)
    ensures CommentTarget(true, name).Some? ==> CommentTarget(true, name).value.1.Some?
  {
  }
}
