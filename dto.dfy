/**
 * The two transfer objects: the draft a client submits to create a Todo, with
 * its declarative name constraints, and the display projection the list shows.
 */
module Dto {
  import opened Wrappers
  import opened Dates
  import opened Entity

  /** `TodoSaveDto`. `deadline` and `priority` carry no constraint at this layer. */
  datatype TodoSaveDto = TodoSaveDto(
    name: Option<string>,
    isDone: bool,
    deadline: Option<LocalDate>,
    priority: Option<Priority>)

  /** `new TodoSaveDto()`: every reference null, the primitive `isDone` false. */
  const EmptyDraft := TodoSaveDto(None, false, None, None)

  /** A draft built from submitted fields; an `isDone` that was not supplied keeps the primitive default. */
  function Draft(name: Option<string>, isDone: Option<bool>, deadline: Option<LocalDate>, priority: Option<Priority>): (d: TodoSaveDto)
    ensures d.isDone <==> isDone == Some(true)
    ensures d.name == name && d.deadline == deadline && d.priority == priority
  {
    TodoSaveDto(name, isDone.GetOr(false), deadline, priority)
  }

  /** `@Size(max = 100)` */
  const MaxNameLength := 100

  /** Drops every leading character at or below U+0020. */
  function TrimStart(s: string): string {
    if |s| > 0 && s[0] <= ' ' then TrimStart(s[1..]) else s
  }

  /** Drops every trailing character at or below U+0020. */
  function TrimEnd(s: string): string {
    if |s| > 0 && s[|s| - 1] <= ' ' then TrimEnd(s[..|s| - 1]) else s
  }

  /** Every character is at or below U+0020. */
  predicate IsBlank(s: string) {
    forall i :: 0 <= i < |s| ==> s[i] <= ' '
  }

  lemma {:induction false} TrimStartBlank(s: string)
    ensures TrimStart(s) == [] <==> IsBlank(s)
    ensures TrimStart(s) != [] ==> TrimStart(s)[0] > ' '
    ensures |TrimStart(s)| <= |s|
  {
    if |s| > 0 && s[0] <= ' ' {
      TrimStartBlank(s[1..]);
      assert forall i :: 1 <= i < |s| ==> s[i] == s[1..][i - 1];
    }
  }

  lemma {:induction false} TrimEndKeepsHead(s: string)
    ensures |s| > 0 && s[0] > ' ' ==> TrimEnd(s) != [] && TrimEnd(s)[0] == s[0]
  {
    if |s| > 1 && s[0] > ' ' && s[|s| - 1] <= ' ' {
      TrimEndKeepsHead(s[..|s| - 1]);
    }
  }

  lemma {:induction false} TrimEndLast(s: string)
    ensures TrimEnd(s) != [] ==> TrimEnd(s)[|TrimEnd(s)| - 1] > ' '
    ensures |TrimEnd(s)| <= |s|
  {
    if |s| > 0 && s[|s| - 1] <= ' ' {
      TrimEndLast(s[..|s| - 1]);
    }
  }

  /** Trimming the front drops a blank prefix and keeps the rest. */
  lemma {:induction false} TrimStartDropsPrefix(s: string)
    ensures exists i :: 0 <= i <= |s| && TrimStart(s) == s[i..] && IsBlank(s[..i])
  {
    if |s| > 0 && s[0] <= ' ' {
      TrimStartDropsPrefix(s[1..]);
      var i :| 0 <= i <= |s[1..]| && TrimStart(s[1..]) == s[1..][i..] && IsBlank(s[1..][..i]);
      assert s[1..][i..] == s[i + 1..];
      assert forall k :: 1 <= k < i + 1 ==> s[k] == s[1..][..i][k - 1];
      assert IsBlank(s[..i + 1]);
    } else {
      assert TrimStart(s) == s[0..] && IsBlank(s[..0]);
    }
  }

  /** Trimming the end drops a blank suffix and keeps the rest. */
  lemma {:induction false} TrimEndDropsSuffix(s: string)
    ensures exists j :: 0 <= j <= |s| && TrimEnd(s) == s[..j] && IsBlank(s[j..])
  {
    if |s| > 0 && s[|s| - 1] <= ' ' {
      var t := s[..|s| - 1];
      TrimEndDropsSuffix(t);
      var j :| 0 <= j <= |t| && TrimEnd(t) == t[..j] && IsBlank(t[j..]);
      assert t[..j] == s[..j];
      assert forall k :: j <= k < |s| - 1 ==> s[k] == t[j..][k - j];
      assert IsBlank(s[j..]);
    } else {
      assert TrimEnd(s) == s[..|s|] && IsBlank(s[|s|..]);
    }
  }

  /** Trimming both ends leaves a slice of the input between a blank prefix and a blank suffix. */
  lemma TrimIsSlice(s: string)
    ensures exists i, j :: 0 <= i <= j <= |s| && TrimEnd(TrimStart(s)) == s[i..j] && IsBlank(s[..i]) && IsBlank(s[j..])
  {
    TrimStartDropsPrefix(s);
    var i :| 0 <= i <= |s| && TrimStart(s) == s[i..] && IsBlank(s[..i]);
    TrimEndDropsSuffix(s[i..]);
    var j :| 0 <= j <= |s[i..]| && TrimEnd(s[i..]) == s[i..][..j] && IsBlank(s[i..][j..]);
    assert s[i..][..j] == s[i..i + j];
    assert s[i..][j..] == s[i + j..];
  }

  /**
   * `String.trim()`: the input with a blank prefix and a blank suffix cut
   * off; empty exactly for a blank string, and otherwise starting and ending
   * with a character above U+0020.
   */
  function Trim(s: string): (r: string)
    ensures exists i, j :: 0 <= i <= j <= |s| && r == s[i..j] && IsBlank(s[..i]) && IsBlank(s[j..])
    ensures r == [] <==> IsBlank(s)
    ensures r != [] ==> r[0] > ' ' && r[|r| - 1] > ' '
  {
    TrimIsSlice(s);
    TrimStartBlank(s);
    TrimEndLast(TrimStart(s));
    TrimEndKeepsHead(TrimStart(s));
    TrimEnd(TrimStart(s))
  }

  /** The name constraints of `TodoSaveDto`. */
  datatype Constraint = NotBlank | SizeMax100

  /**
   * The constraints a draft violates. `@NotBlank` rejects null and any name
   * whose trimmed form is empty; `@Size` accepts null and rejects names longer
   * than 100 characters.
   */
  function Violations(d: TodoSaveDto): (v: set<Constraint>)
    ensures NotBlank in v <==> d.name.None? || IsBlank(d.name.value)
    ensures SizeMax100 in v <==> d.name.Some? && |d.name.value| > MaxNameLength
  {
    (if d.name.None? || |Trim(d.name.value)| == 0 then {NotBlank} else {})
    + (if d.name.Some? && |d.name.value| > MaxNameLength then {SizeMax100} else {})
  }

  /** The draft passes bean validation: a name of at most 100 characters that is not blank. */
  function IsValid(d: TodoSaveDto): (ok: bool)
    ensures ok <==> d.name.Some? && |d.name.value| <= MaxNameLength && !IsBlank(d.name.value)
  {
    Violations(d) == {}
  }

  /** A valid draft has a name of 1 to 100 characters with at least one character above U+0020. */
  lemma ValidIff(d: TodoSaveDto)
    ensures IsValid(d) <==>
      d.name.Some? && |d.name.value| <= MaxNameLength && exists i :: 0 <= i < |d.name.value| && d.name.value[i] > ' '
  {
    var v := Violations(d);
    if IsValid(d) {
      assert NotBlank !in v && SizeMax100 !in v;
    } else {
      assert NotBlank in v || SizeMax100 in v;
    }
  }

  /** `TodoFrontendDto`: id and name as stored, the other three fields as display strings. */
  datatype TodoFrontendDto = TodoFrontendDto(
    todoId: Option<int>,
    name: Option<string>,
    isDone: string,
    deadline: string,
    priority: string)
}
