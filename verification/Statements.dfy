/** Telling the statements of a script apart: tables, late foreign keys,
    comments, and the rest. */
module Statements {
  import opened Options
  import opened Scanning
  import opened Cursors
  import opened TableParser

  datatype Comment = Comment(table: string, column: Option<string>, text: string)

  datatype Meaning =
    | Table(parsed: ParsedTable)
    | ForeignKey(holder: string, key: ParsedForeignKey)
    | Remark(comment: Comment)
    | Skipped

  function Eaten(rest: seq<Token>, word: string): (r: seq<Token>)
    ensures |r| <= |rest|
  {
    if AtWord(rest, word) then rest[1..] else rest
  }

  // ----- ALTER TABLE -----

  /** The table altered, and what follows `ADD [CONSTRAINT name]`. */
  function AlterHead(tokens: seq<Token>): Option<(string, seq<Token>)> {
    var rest := Eaten(tokens, "alter");
    if !AtWord(rest, "table") then None
    else
      var rest := rest[1..];
      var rest := if AtWords(rest, ["if", "exists"]) then rest[2..] else rest;
      var (holder, rest) := QualifiedName(Eaten(rest, "only"));
      if holder.None? || !AtWord(rest, "add") then None
      else
        var rest := rest[1..];
        Some((holder.value, if AtWord(rest, "constraint") then Next(rest[1..]) else rest))
  }

  /** A foreign key clause over a single column. */
  function KeyClause(rest: seq<Token>): Option<ParsedForeignKey> {
    if !AtWords(rest, ["foreign", "key"]) then None
    else
      var (columns, rest) := NameList(rest[2..]);
      if columns.None? || !AtWord(rest, "references") then None
      else
        var (table, rest) := QualifiedName(rest[1..]);
        if table.None? || |columns.value| != 1 then None
        else Some(ParsedForeignKey(columns.value[0], table.value, TargetOf(NameList(rest).0)))
  }

  function Altered(tokens: seq<Token>): Meaning {
    match AlterHead(tokens)
    case None => Skipped
    case Some((holder, rest)) =>
      match KeyClause(rest)
      case None => Skipped
      case Some(key) => ForeignKey(holder, key)
  }

  method ReadAlterHead(cursor: Cursor) returns (holder: Option<string>)
    requires cursor.Valid()
    modifies cursor
    ensures cursor.Valid()
    ensures AlterHead(old(cursor.Rest())) == if holder.None? then None else Some((holder.value, cursor.Rest()))
  {
    hide QualifiedName, AtWords;
    var _ := cursor.EatWord("alter");
    var found := cursor.EatWord("table");
    if !found {
      return None;
    }
    var _ := cursor.EatWords(["if", "exists"]);
    var _ := cursor.EatWord("only");
    holder := cursor.ReadName();
    if holder.None? {
      return None;
    }
    found := cursor.EatWord("add");
    if !found {
      return None;
    }
    found := cursor.EatWord("constraint");
    if found {
      var _ := cursor.Step();
    }
  }

  method ReadKeyClause(cursor: Cursor) returns (key: Option<ParsedForeignKey>)
    requires cursor.Valid()
    modifies cursor
    ensures cursor.Valid() && key == KeyClause(old(cursor.Rest()))
  {
    hide QualifiedName, NameList, AtWords;
    var found := cursor.EatWords(["foreign", "key"]);
    if !found {
      return None;
    }
    var columns := cursor.ReadNames();
    if columns.None? {
      return None;
    }
    found := cursor.EatWord("references");
    if !found {
      return None;
    }
    var table := cursor.ReadName();
    if table.None? {
      return None;
    }
    var targets := cursor.ReadNames();
    if |columns.value| != 1 {
      return None;
    }
    return Some(ParsedForeignKey(columns.value[0], table.value, TargetOf(targets)));
  }

  method ReadAlter(tokens: seq<Token>) returns (meaning: Meaning)
    ensures meaning == Altered(tokens)
  {
    hide AlterHead, KeyClause;
    var cursor := new Cursor(tokens);
    var holder := ReadAlterHead(cursor);
    if holder.None? {
      return Skipped;
    }
    var key := ReadKeyClause(cursor);
    match key {
      case None => return Skipped;
      case Some(k) => return ForeignKey(holder.value, k);
    }
  }

  // ----- COMMENT ON -----

  /** Where the last dot is. */
  function LastDot(s: string): (r: Option<nat>)
    ensures r.Some? ==> r.value < |s| && s[r.value] == '.' && forall i :: r.value < i < |s| ==> s[i] != '.'
    ensures r.None? ==> '.' !in s
  {
    if s == "" then None
    else if s[|s| - 1] == '.' then Some(|s| - 1)
    else
      var front := s[..|s| - 1];
      assert forall i :: 0 <= i < |front| ==> s[i] == front[i];
      LastDot(front)
  }

  /** The commented thing: a table, or a column by `table.column`. */
  function CommentTarget(onColumn: bool, name: string): Option<(string, Option<string>)> {
    if !onColumn then Some((name, None))
    else
      match LastDot(name)
      case None => None
      case Some(dot) => Some((name[..dot], Some(name[dot + 1..])))
  }

  function CommentText(rest: seq<Token>): Option<string> {
    if |rest| >= 2 && rest[0] == Word("is") && rest[1].Text? then Some(rest[1].text) else None
  }

  function Commented(tokens: seq<Token>): Meaning {
    var rest := Eaten(tokens, "comment");
    if !AtWord(rest, "on") then Skipped
    else
      var rest := rest[1..];
      if !AtWord(rest, "column") && !AtWord(rest, "table") then Skipped
      else
        var (name, left) := QualifiedName(rest[1..]);
        if name.None? || CommentText(left).None? then Skipped
        else
          match CommentTarget(AtWord(rest, "column"), name.value)
          case None => Skipped
          case Some((table, column)) => Remark(Comment(table, column, CommentText(left).value))
  }

  method ReadComment(tokens: seq<Token>) returns (meaning: Meaning)
    ensures meaning == Commented(tokens)
  {
    hide QualifiedName;
    var cursor := new Cursor(tokens);
    var _ := cursor.EatWord("comment");
    var found := cursor.EatWord("on");
    if !found {
      return Skipped;
    }
    var onColumn := cursor.EatWord("column");
    if !onColumn {
      found := cursor.EatWord("table");
      if !found {
        return Skipped;
      }
    }
    var name := cursor.ReadName();
    if name.None? {
      return Skipped;
    }
    var text := ReadCommentText(cursor);
    if text.None? {
      return Skipped;
    }
    match CommentTarget(onColumn, name.value) {
      case None => return Skipped;
      case Some(target) => return Remark(Comment(target.0, target.1, text.value));
    }
  }

  method ReadCommentText(cursor: Cursor) returns (text: Option<string>)
    requires cursor.Valid()
    modifies cursor
    ensures cursor.Valid() && text == CommentText(old(cursor.Rest()))
  {
    var found := cursor.EatWord("is");
    if !found {
      return None;
    }
    var token := cursor.Step();
    match token {
      case Some(Text(t)) => return Some(t);
      case _ => return None;
    }
  }

  // ----- all three -----

  function Classified(tokens: seq<Token>): Meaning {
    if AtWord(tokens, "create") then
      match Parsed(tokens)
      case None => Skipped
      case Some(parsed) => Table(parsed)
    else if AtWord(tokens, "alter") then Altered(tokens)
    else if AtWord(tokens, "comment") then Commented(tokens)
    else Skipped
  }

  method Classify(tokens: seq<Token>) returns (meaning: Meaning)
    ensures meaning == Classified(tokens)
  {
    hide Parsed, Altered, Commented;
    var first := if tokens == [] then None else Some(tokens[0]);
    if first == Some(Word("create")) {
      var parsed := Parse(tokens);
      match parsed {
        case None => return Skipped;
        case Some(table) => return Table(table);
      }
    }
    if first == Some(Word("alter")) {
      meaning := ReadAlter(tokens);
      return;
    }
    if first == Some(Word("comment")) {
      meaning := ReadComment(tokens);
      return;
    }
    return Skipped;
  }
}
