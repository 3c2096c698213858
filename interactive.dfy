/** The `interactive` package: whether to prompt, and the key handling and
    results of the prompts. The terminal programs that run the prompts are
    replaced by the keys they deliver; rendering is not modelled. */
module Interactive {
  import opened Wrappers
  import GoPaths

  // ------------------------------------------------------------------- mode

  datatype Mode = Auto | Interactive | NonInteractive

  /** What `GetMode` looks at: the two flags, the two environment variables, and
      whether standard input and output are terminals. */
  datatype Environment = Environment(
    interactiveFlag: bool, noInteractiveFlag: bool,
    ci: string, omdotNonInteractive: string,
    stdinIsTerminal: bool, stdoutIsTerminal: bool)

  /** `GetMode`: the flags first, then the environment, then the terminals. */
  function GetMode(env: Environment): (m: Mode)
    ensures env.interactiveFlag ==> m == Interactive
    ensures !env.interactiveFlag && env.noInteractiveFlag ==> m == NonInteractive
    ensures m == Interactive <==> env.interactiveFlag
    ensures m == Auto <==>
      && !env.interactiveFlag && !env.noInteractiveFlag
      && env.ci == "" && env.omdotNonInteractive == ""
      && env.stdinIsTerminal && env.stdoutIsTerminal
  {
    if env.interactiveFlag then Interactive
    else if env.noInteractiveFlag then NonInteractive
    else if env.ci != "" || env.omdotNonInteractive != "" then NonInteractive
    else if !env.stdinIsTerminal || !env.stdoutIsTerminal then NonInteractive
    else Auto
  }

  /** `ShouldPrompt`: always when forced, never when not interactive, and in auto
      mode only when information is missing. */
  function ShouldPrompt(env: Environment, hasRequiredInfo: bool): (r: bool)
    ensures env.interactiveFlag ==> r
    ensures GetMode(env) == NonInteractive ==> !r
    ensures GetMode(env) == Auto ==> (r <==> !hasRequiredInfo)
  {
    match GetMode(env)
    case Interactive => true
    case NonInteractive => false
    case Auto => !hasRequiredInfo
  }

  /** A prompt happens with all information at hand only when it is forced, and
      the environment alone never forces one. */
  lemma PromptWithInfoIsForced(env: Environment)
    ensures ShouldPrompt(env, true) <==> env.interactiveFlag
    ensures ShouldPrompt(env, false) <==> env.interactiveFlag || GetMode(env) == Auto
  {
  }

  // -------------------------------------------------------------- text input

  /** `PromptInput`'s result from the finished input: cancelled, or the text
      typed, with empty text meaning the default. */
  function InputResult(cancelled: bool, value: string, defaultValue: string): (r: Result<string>)
    ensures cancelled <==> r == Err("cancelled")
    ensures !cancelled && value == "" ==> r == Ok(defaultValue)
    ensures !cancelled && value != "" ==> r == Ok(value)
  {
    if cancelled then Err("cancelled")
    else if value == "" then Ok(defaultValue)
    else Ok(value)
  }

  /** The answer is empty only when the default is. */
  lemma InputNeverEmptyUnlessDefault(cancelled: bool, value: string, defaultValue: string)
    requires InputResult(cancelled, value, defaultValue).Ok?
    ensures InputResult(cancelled, value, defaultValue).value == "" ==> defaultValue == ""
  {
  }

  // ----------------------------------------------------------------- confirm

  /** The answer a key picks in the confirm prompt, if it picks one. */
  function Choice(key: string): (r: Option<bool>)
    ensures key in {"y", "Y", "right", "l"} <==> r == Some(true)
    ensures key in {"n", "N", "left", "h"} <==> r == Some(false)
  {
    if key in {"y", "Y", "right", "l"} then Some(true)
    else if key in {"n", "N", "left", "h"} then Some(false)
    else None
  }

  /** Keys that end the confirm prompt. */
  predicate EndsConfirm(key: string) {
    key in {"y", "Y", "n", "N", "enter", "ctrl+c", "esc"}
  }

  /** `PromptConfirm` fed `keys` from the current answer `selected` (initially
      no): `None` while no key has ended it. */
  function RunConfirm(selected: bool, keys: seq<string>): (r: Option<Result<bool>>)
    ensures r.Some? <==> exists i :: 0 <= i < |keys| && EndsConfirm(keys[i])
    decreases |keys|
  {
    if keys == [] then None
    else
      var key := keys[0];
      var next := if Choice(key).Some? then Choice(key).value else selected;
      var rest := RunConfirm(next, keys[1..]);
      if key in {"ctrl+c", "esc"} then Some(Err("cancelled"))
      else if EndsConfirm(key) then Some(Ok(next))
      else
        assert forall i :: 1 <= i < |keys| ==> keys[i] == keys[1..][i - 1];
        rest
  }

  /** The answer after the keys `keys`, read from the last key that picks one. */
  function LastChoice(selected: bool, keys: seq<string>): bool
    decreases |keys|
  {
    if keys == [] then selected
    else
      var c := Choice(keys[|keys| - 1]);
      if c.Some? then c.value else LastChoice(selected, keys[..|keys| - 1])
  }

  lemma {:induction false} LastChoiceStep(selected: bool, key: string, keys: seq<string>)
    ensures LastChoice(selected, [key] + keys) == LastChoice(if Choice(key).Some? then Choice(key).value else selected, keys)
    decreases |keys|
  {
    if keys != [] {
      assert ([key] + keys)[..|[key] + keys| - 1] == [key] + keys[..|keys| - 1];
      LastChoiceStep(selected, key, keys[..|keys| - 1]);
    }
  }

  /** When the first key that ends the prompt is at `i` and is not a cancel, the
      answer is the one picked last up to and including it (no, if none is). */
  lemma {:induction false} ConfirmAnswer(selected: bool, keys: seq<string>, i: nat)
    requires i < |keys| && EndsConfirm(keys[i]) && keys[i] !in {"ctrl+c", "esc"}
    requires forall j :: 0 <= j < i ==> !EndsConfirm(keys[j])
    ensures RunConfirm(selected, keys) == Some(Ok(LastChoice(selected, keys[..i + 1])))
    decreases i
  {
    var key := keys[0];
    var next := if Choice(key).Some? then Choice(key).value else selected;
    LastChoiceStep(selected, key, keys[1..i + 1]);
    assert keys[..i + 1] == [key] + keys[1..i + 1];
    if i == 0 {
      assert keys[1..1] == [];
    } else {
      assert keys[1..][..i] == keys[1..i + 1];
      ConfirmAnswer(next, keys[1..], i - 1);
    }
  }

  // ------------------------------------------------------------------ select

  /** `PromptSelect`'s result from the finished list: cancelled, the index of the
      highlighted item, or no item at all. */
  function SelectResult(cancelled: bool, highlighted: Option<int>): (r: Result<int>)
    ensures cancelled ==> r == Err("cancelled")
    ensures r.Ok? <==> !cancelled && highlighted.Some?
    ensures r.Ok? ==> r.value == highlighted.value
  {
    if cancelled then Err("cancelled")
    else if highlighted.Some? then Ok(highlighted.value)
    else Err("no selection made")
  }

  // ------------------------------------------------------------ multi-select

  /** A mark is off unless set. */
  function Marked(selected: map<int, bool>, i: int): bool {
    i in selected && selected[i]
  }

  /** The state of the multi-select prompt. The map of marks is shared with the
      caller and changed in place. */
  class MultiSelect {
    var options: seq<string>
    var selected: map<int, bool>
    var cursor: int
    var cancelled: bool

    /** The cursor stays on an option, or at 0 when there are none. */
    predicate Valid()
      reads this
    {
      0 <= cursor && (cursor < |options| || cursor == 0)
    }

    constructor (options: seq<string>)
      ensures this.options == options && selected == map[] && cursor == 0 && !cancelled
      ensures Valid()
    {
      this.options := options;
      selected := map[];
      cursor := 0;
      cancelled := false;
    }

    /** One key: arrows move within the options, space flips the mark under the
      cursor, enter ends, escape cancels. `quit` says the prompt ended. */
    method Update(key: string) returns (quit: bool)
      requires Valid()
      modifies this
      ensures Valid() && options == old(options)
      ensures quit <==> key in {"enter", "ctrl+c", "esc"}
      ensures cancelled == (old(cancelled) || key in {"ctrl+c", "esc"})
      ensures key in {"up", "k"} ==> cursor == if old(cursor) > 0 then old(cursor) - 1 else old(cursor)
      ensures key in {"down", "j"} ==> cursor == if old(cursor) < |options| - 1 then old(cursor) + 1 else old(cursor)
      ensures key !in {"up", "k", "down", "j"} ==> cursor == old(cursor)
      ensures key == " " ==> selected == old(selected)[cursor := !Marked(old(selected), cursor)]
      ensures key != " " ==> selected == old(selected)
    {
      quit := false;
      if key == "up" || key == "k" {
        if cursor > 0 {
          cursor := cursor - 1;
        }
      } else if key == "down" || key == "j" {
        if cursor < |options| - 1 {
          cursor := cursor + 1;
        }
      } else if key == " " {
        selected := selected[cursor := !Marked(selected, cursor)];
      } else if key == "enter" {
        quit := true;
      } else if key == "ctrl+c" || key == "esc" {
        cancelled := true;
        quit := true;
      }
    }

    /** `PromptMultiSelect`'s result: an error when cancelled, otherwise the
      marked options' indices in increasing order. Marks beyond the options are
      ignored. */
    method SelectedIndices() returns (r: Result<seq<int>>)
      ensures cancelled <==> r == Err("cancelled")
      ensures r.Ok? ==> forall a, b :: 0 <= a < b < |r.value| ==> r.value[a] < r.value[b]
      ensures r.Ok? ==> forall i :: i in r.value <==> 0 <= i < |options| && Marked(selected, i)
    {
      if cancelled {
        return Err("cancelled");
      }
      var indices: seq<int> := [];
      var i := 0;
      while i < |options|
        invariant 0 <= i <= |options|
        invariant forall a, b :: 0 <= a < b < |indices| ==> indices[a] < indices[b]
        invariant forall a :: 0 <= a < |indices| ==> indices[a] < i
        invariant forall j :: j in indices <==> 0 <= j < i && Marked(selected, j)
      {
        if Marked(selected, i) {
          indices := indices + [i];
        }
        i := i + 1;
      }
      return Ok(indices);
    }
  }

  /** Flipping the same mark twice restores every mark's value. */
  lemma FlipTwice(selected: map<int, bool>, c: int, i: int)
    ensures var once := selected[c := !Marked(selected, c)];
      Marked(once[c := !Marked(once, c)], i) == Marked(selected, i)
  {
  }

  // ------------------------------------------------------------- file picker

  /** `selected` with `path` added, or removed when it is there. */
  function Toggled(selected: set<string>, path: string): (r: set<string>)
    ensures path in r <==> path !in selected
    ensures forall q :: q != path ==> (q in r <==> q in selected)
  {
    if path in selected then selected - {path} else selected + {path}
  }

  /** Toggling the same path twice changes nothing. */
  lemma ToggleTwice(selected: set<string>, path: string)
    ensures Toggled(Toggled(selected, path), path) == selected
  {
  }

  /** The file picker's selection (the keys of its set-to-true map); the order
      the paths come back in is that of Go's map iteration and is not modelled. */
  class FilePicker {
    var directory: string
    var selected: set<string>
    var cancelled: bool

    constructor (directory: string)
      ensures this.directory == directory && selected == {} && !cancelled
    {
      this.directory := directory;
      selected := {};
      cancelled := false;
    }

    /** Space: the highlighted entry's path joins the selection or leaves it. */
    method Space(highlighted: string)
      modifies this
      ensures directory == old(directory) && cancelled == old(cancelled)
      ensures selected == Toggled(old(selected), GoPaths.Join2(directory, highlighted))
    {
      var p := GoPaths.Join2(directory, highlighted);
      if p in selected {
        selected := selected - {p};
      } else {
        selected := selected + {p};
      }
    }

    /** Enter: with nothing selected, the highlighted entry (if any) is taken. */
    method Enter(highlighted: string)
      modifies this
      ensures directory == old(directory) && cancelled == old(cancelled)
      ensures old(selected) == {} && highlighted != "" ==> selected == {GoPaths.Join2(directory, highlighted)}
      ensures !(old(selected) == {} && highlighted != "") ==> selected == old(selected)
      ensures highlighted != "" ==> selected != {}
    {
      if |selected| == 0 && highlighted != "" {
        selected := selected + {GoPaths.Join2(directory, highlighted)};
      }
    }

    /** A file chosen in the picker itself is added to the selection. */
    method PickFile(path: string)
      modifies this
      ensures directory == old(directory) && cancelled == old(cancelled)
      ensures selected == old(selected) + {path}
    {
      selected := selected + {path};
    }

    /** Escape or Ctrl+C. */
    method Cancel()
      modifies this
      ensures directory == old(directory) && selected == old(selected) && cancelled
    {
      cancelled := true;
    }

    /** `PromptFilePicker`'s result: an error when cancelled, else the selection. */
    function Selection(): (r: Result<set<string>>)
      reads this
      ensures r.Err? <==> cancelled
      ensures r.Ok? ==> r.value == selected
    {
      if cancelled then Err("cancelled") else Ok(selected)
    }
  }
}
