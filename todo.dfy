/** The to-do list of todolist/todo.py: `TodoCLI.tasks` is a list of records
    with a description and a completion flag, and the commands `add`,
    `complete`, `remove`, `clear` and `list` read and change it. Loading and
    saving the JSON file, the command loop and the printed messages other
    than the listing are not part of this model. */
module Todo {
  import opened Wrappers
  import opened Sequences

  /** One entry of `self.tasks`: `{"description": ..., "completed": ...}`. */
  datatype Task = Task(description: string, completed: bool)

  /** The characters Python's `str.isspace` accepts, which are the ones
      `str.strip()` removes: the blank, tab, line feed and carriage return
      among them, and no visible ASCII character. */
  predicate IsSpace(c: char)
    ensures c == ' ' || c == '\t' || c == '\n' || c == '\r' ==> IsSpace(c)
    ensures '!' <= c <= '~' ==> !IsSpace(c)
  {
    || ('\U{0009}' <= c <= '\U{000D}') || ('\U{001C}' <= c <= '\U{001F}') || c == ' '
    || c == '\U{0085}' || c == '\U{00A0}' || c == '\U{1680}' || ('\U{2000}' <= c <= '\U{200A}')
    || c == '\U{2028}' || c == '\U{2029}' || c == '\U{202F}' || c == '\U{205F}' || c == '\U{3000}'
  }

  /** Every character of `s` from position `lo` up to `hi` is a space. */
  predicate SpacesBetween(s: string, lo: int, hi: int) {
    forall i :: lo <= i < hi && 0 <= i < |s| ==> IsSpace(s[i])
  }

  predicate AllSpace(s: string) {
    SpacesBetween(s, 0, |s|)
  }

  /** The position of the first character at or after `i` that is not a
      space, or `|s|` when there is none. */
  function FirstNonSpace(s: string, i: nat): (k: nat)
    requires i <= |s|
    ensures i <= k <= |s| && SpacesBetween(s, i, k)
    ensures k < |s| ==> !IsSpace(s[k])
    decreases |s| - i
  {
    if i < |s| && IsSpace(s[i]) then FirstNonSpace(s, i + 1) else i
  }

  /** The end of `s[lo..j]` once its trailing spaces are dropped. */
  function TrimmedEnd(s: string, lo: nat, j: nat): (k: nat)
    requires lo <= j <= |s|
    ensures lo <= k <= j && SpacesBetween(s, k, j)
    ensures k > lo ==> !IsSpace(s[k - 1])
    decreases j
  {
    if j > lo && IsSpace(s[j - 1]) then TrimmedEnd(s, lo, j - 1) else j
  }

  /** Python's `str.strip()` with no argument, as `do_add` applies it: the part of `s`
      between its leading and its trailing whitespace. */
  function Strip(s: string): (r: string)
    ensures r == [] <==> AllSpace(s)
    ensures r != [] ==> !IsSpace(r[0]) && !IsSpace(r[|r| - 1])
    ensures exists lo, hi :: 0 <= lo <= hi <= |s| && r == s[lo..hi]
                             && SpacesBetween(s, 0, lo) && SpacesBetween(s, hi, |s|)
  {
    var lo := FirstNonSpace(s, 0);
    var hi := TrimmedEnd(s, lo, |s|);
    assert lo < |s| ==> !IsSpace(s[lo]);
    s[lo..hi]
  }

  lemma {:induction false} FirstNonSpaceAt(s: string, i: nat, lo: nat)
    requires i <= lo <= |s| && SpacesBetween(s, i, lo)
    requires lo < |s| ==> !IsSpace(s[lo])
    ensures FirstNonSpace(s, i) == lo
    decreases lo - i
  {
    if i < lo {
      FirstNonSpaceAt(s, i + 1, lo);
    }
  }

  lemma {:induction false} TrimmedEndAt(s: string, lo: nat, j: nat, hi: nat)
    requires lo <= hi <= j <= |s| && SpacesBetween(s, hi, j)
    requires hi > lo ==> !IsSpace(s[hi - 1])
    ensures TrimmedEnd(s, lo, j) == hi
    decreases j - hi
  {
    if hi < j {
      TrimmedEndAt(s, lo, j - 1, hi);
    }
  }

  /** The strip is the only cut of `s` into spaces, a part that neither
      starts nor ends with a space, and spaces. */
  lemma StripUnique(s: string, lo: nat, hi: nat)
    requires lo <= hi <= |s|
    requires SpacesBetween(s, 0, lo) && SpacesBetween(s, hi, |s|)
    requires lo < hi ==> !IsSpace(s[lo]) && !IsSpace(s[hi - 1])
    ensures Strip(s) == s[lo..hi]
  {
    if lo < hi {
      FirstNonSpaceAt(s, 0, lo);
      TrimmedEndAt(s, lo, |s|, hi);
    } else {
      assert AllSpace(s);
    }
  }

  /** Stripping a stripped string changes nothing. */
  lemma StripIdempotent(s: string)
    ensures Strip(Strip(s)) == Strip(s)
  {
    var r := Strip(s);
    if r != [] {
      assert FirstNonSpace(r, 0) == 0;
      assert TrimmedEnd(r, 0, |r|) == |r|;
      assert r[0..|r|] == r;
    }
  }

  /** The number of completed tasks in `tasks`. */
  function CompletedCount(tasks: seq<Task>): (n: nat)
    ensures n <= |tasks|
  {
    if tasks == [] then 0
    else (if tasks[0].completed then 1 else 0) + CompletedCount(tasks[1..])
  }

  /** The list comprehension of `do_clear`: those entries that are not completed,
      in their original order. */
  function Pending(tasks: seq<Task>): (r: seq<Task>)
    ensures forall t :: t in r <==> t in tasks && !t.completed
    ensures |r| + CompletedCount(tasks) == |tasks|
  {
    if tasks == [] then []
    else (if tasks[0].completed then [] else [tasks[0]]) + Pending(tasks[1..])
  }

  /** Filtering keeps the order: the pending tasks of a concatenation are
      the pending tasks of the first part followed by those of the second. */
  lemma {:induction false} PendingAppend(a: seq<Task>, b: seq<Task>)
    ensures Pending(a + b) == Pending(a) + Pending(b)
    decreases |a|
  {
    if a == [] {
      assert a + b == b;
    } else {
      assert (a + b)[1..] == a[1..] + b;
      PendingAppend(a[1..], b);
    }
  }

  /** A list with no completed task is left as it is by the filter, so
      clearing twice removes nothing the second time. */
  lemma {:induction false} PendingIdempotent(tasks: seq<Task>)
    ensures CompletedCount(Pending(tasks)) == 0
    ensures Pending(Pending(tasks)) == Pending(tasks)
  {
    NoneCompleted(Pending(tasks));
  }

  lemma {:induction false} NoneCompleted(tasks: seq<Task>)
    requires forall t :: t in tasks ==> !t.completed
    ensures CompletedCount(tasks) == 0
    ensures Pending(tasks) == tasks
  {
    if tasks != [] {
      assert tasks[0] in tasks;
      assert forall t :: t in tasks[1..] ==> t in tasks;
      NoneCompleted(tasks[1..]);
      assert tasks == [tasks[0]] + tasks[1..];
    }
  }

  /** The decimal digit for `d`. */
  function Digit(d: nat): char
    requires d < 10
  {
    "0123456789"[d]
  }

  predicate IsDigit(c: char) {
    '0' <= c <= '9'
  }

  /** The decimal numeral of `n`, as Python's f-string prints an int. */
  function NatToString(n: nat): (s: string)
    ensures |s| > 0
    ensures forall i :: 0 <= i < |s| ==> IsDigit(s[i])
    ensures s[0] == '0' ==> n == 0 && s == "0"
  {
    if n < 10 then [Digit(n)]
    else NatToString(n / 10) + [Digit(n % 10)]
  }

  /** The value of one decimal digit. */
  function DigitValue(c: char): (d: nat)
    requires IsDigit(c)
    ensures d < 10
  {
    (c as int) - ('0' as int)
  }

  /** The value of a string of decimal digits. */
  function DigitsValue(s: string): nat
    requires forall i :: 0 <= i < |s| ==> IsDigit(s[i])
  {
    if s == [] then 0
    else 10 * DigitsValue(s[..|s| - 1]) + DigitValue(s[|s| - 1])
  }

  /** Reading back the numeral gives the number: the listing's numbers are
      the positions they claim to be. */
  lemma {:induction false} NatToStringRoundTrip(n: nat)
    ensures DigitsValue(NatToString(n)) == n
  {
    if n >= 10 {
      NatToStringRoundTrip(n / 10);
      var s := NatToString(n);
      assert s[..|s| - 1] == NatToString(n / 10);
    }
  }

  /** `do_list`'s status mark: a box that is ticked exactly when the task
      is completed. */
  function Mark(t: Task): (m: string)
    ensures |m| == 3 && m[0] == '[' && m[2] == ']'
    ensures m[1] == 'x' <==> t.completed
    ensures m[1] == ' ' <==> !t.completed
  {
    if t.completed then "[x]" else "[ ]"
  }

  /** The line `do_list` prints for entry number `n`: it starts with the
      number and ends with the description. */
  function Line(n: nat, t: Task): (r: string)
    ensures |r| == |NatToString(n)| + 6 + |t.description|
    ensures r[..|NatToString(n)|] == NatToString(n)
    ensures r[|r| - |t.description|..] == t.description
  {
    NatToString(n) + ". " + Mark(t) + " " + t.description
  }

  /** What `do_list` prints when there are no tasks. */
  const NoTasksMessage: string := "No tasks found."

  /** A line shows `[x]` right after its number exactly when that entry is
      completed, and ends with its description. */
  lemma LineShowsStatus(n: nat, t: Task)
    ensures var p := |NatToString(n)| + 2;
      && Line(n, t)[..p] == NatToString(n) + ". "
      && (Line(n, t)[p..p + 3] == "[x]" <==> t.completed)
      && Line(n, t)[p + 3..] == " " + t.description
  {
    var p := |NatToString(n)| + 2;
    var l := Line(n, t);
    assert l == (NatToString(n) + ". ") + (Mark(t) + (" " + t.description));
    assert l[p..p + 3] == Mark(t);
  }

  class TodoCLI {
    var tasks: seq<Task>

    /** `__init__`: the list starts as the entries `load_tasks` read, which is
        the empty list when the file is missing or cannot be decoded. */
    constructor (loaded: seq<Task>)
      ensures tasks == loaded
    {
      tasks := loaded;
    }

    /** `do_add`: a description that is empty after stripping is refused and
        nothing changes; otherwise the stripped description is appended as a
        new task that is not completed. Returns the description added. */
    method Add(arg: string) returns (added: Option<string>)
      modifies this
      ensures Strip(arg) == [] ==> added == None && tasks == old(tasks)
      ensures Strip(arg) != [] ==>
        added == Some(Strip(arg)) && tasks == old(tasks) + [Task(Strip(arg), false)]
    {
      var description := Strip(arg);
      if description == [] {
        return None;
      }
      tasks := tasks + [Task(description, false)];
      added := Some(description);
    }

    /** `do_complete`: `arg` is the parsed task number, or `None` when `int()`
        refused it. A number outside 1..|tasks| changes nothing; otherwise
        that task is marked completed and every other task, and the length,
        stay as they were. */
    method Complete(arg: Option<int>) returns (ok: bool)
      modifies this
      ensures ok <==> arg.Some? && 1 <= arg.value <= |old(tasks)|
      ensures !ok ==> tasks == old(tasks)
      ensures ok ==> var i := arg.value - 1;
        && |tasks| == |old(tasks)|
        && tasks[i] == old(tasks)[i].(completed := true)
        && forall k :: 0 <= k < |tasks| && k != i ==> tasks[k] == old(tasks)[k]
    {
      if arg.None? || arg.value < 1 || arg.value > |tasks| {
        return false;
      }
      var i := arg.value - 1;
      tasks := tasks[i := tasks[i].(completed := true)];
      ok := true;
    }

    /** `do_remove`: a number outside 1..|tasks| changes nothing; otherwise
        the entry at that position is popped and returned, and the others
        keep their order. */
    method Remove(arg: Option<int>) returns (removed: Option<Task>)
      modifies this
      ensures removed.Some? <==> arg.Some? && 1 <= arg.value <= |old(tasks)|
      ensures removed.None? ==> tasks == old(tasks)
      ensures removed.Some? ==>
        && removed.value == old(tasks)[arg.value - 1]
        && tasks == RemoveAt(old(tasks), arg.value - 1)
    {
      if arg.None? || arg.value < 1 || arg.value > |tasks| {
        return None;
      }
      var i := arg.value - 1;
      var task := tasks[i];
      tasks := RemoveAt(tasks, i);
      removed := Some(task);
    }

    /** `do_clear`: the completed tasks are dropped, the others keep their
        order, and the count reported is the difference in length, which is
        the number of completed tasks before the call. */
    method Clear() returns (removed: nat)
      modifies this
      ensures tasks == Pending(old(tasks))
      ensures removed == CompletedCount(old(tasks))
    {
      var before := |tasks|;
      tasks := Pending(tasks);
      removed := before - |tasks|;
    }

    /** `do_list`: the lines printed, one per task numbered from 1 in list
        order with its status mark, or the single message for an empty
        list. */
    method List() returns (lines: seq<string>)
      ensures tasks == [] ==> lines == [NoTasksMessage]
      ensures tasks != [] ==> |lines| == |tasks|
      ensures tasks != [] ==> forall i :: 0 <= i < |tasks| ==> lines[i] == Line(i + 1, tasks[i])
    {
      if tasks == [] {
        return [NoTasksMessage];
      }
      lines := [];
      var idx := 0;
      while idx < |tasks|
        invariant 0 <= idx <= |tasks|
        invariant |lines| == idx
        invariant forall i :: 0 <= i < idx ==> lines[i] == Line(i + 1, tasks[i])
      {
        lines := lines + [Line(idx + 1, tasks[idx])];
        idx := idx + 1;
      }
    }
  }
}
