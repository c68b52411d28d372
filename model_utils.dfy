/**
 * `ModelUtils.GetModelErrors`: the body of a 400 response for a request
 * whose form failed validation. The model state is a sequence of entries,
 * one per form field, each holding that field's validation errors; the
 * body is every error message followed by a newline, in entry order and,
 * within an entry, in error order.
 */
module ModelUtils {

  datatype ModelError = ModelError(errorMessage: string)

  datatype ModelStateEntry = ModelStateEntry(errors: seq<ModelError>)

  /** The messages of one entry, in order. */
  function EntryMessages(errors: seq<ModelError>): (ms: seq<string>)
    ensures |ms| == |errors|
    ensures forall k :: 0 <= k < |errors| ==> ms[k] == errors[k].errorMessage
  {
    seq(|errors|, k requires 0 <= k < |errors| => errors[k].errorMessage)
  }

  /** Every message of every entry, entries in order and errors in order within each. */
  function Messages(values: seq<ModelStateEntry>): seq<string>
  {
    if values == [] then []
    else Messages(values[..|values| - 1]) + EntryMessages(values[|values| - 1].errors)
  }

  /** One line per message: the message and then "\n". */
  function Lines(ms: seq<string>): string
  {
    if ms == [] then "" else Lines(ms[..|ms| - 1]) + ms[|ms| - 1] + "\n"
  }

  /** No entry holds an error. */
  predicate NoErrors(values: seq<ModelStateEntry>)
  {
    forall i :: 0 <= i < |values| ==> values[i].errors == []
  }

  /** The total length of a list of strings. */
  function TotalLength(ms: seq<string>): nat
  {
    if ms == [] then 0 else TotalLength(ms[..|ms| - 1]) + |ms[|ms| - 1]|
  }

  /** `GetModelErrors(values)`: the nested loops appending to `body`. */
  method GetModelErrors(values: seq<ModelStateEntry>) returns (body: string)
    ensures body == Lines(Messages(values))
    ensures body == "" <==> NoErrors(values)
    ensures |body| == TotalLength(Messages(values)) + |Messages(values)|
    ensures body != "" ==> body[|body| - 1] == '\n'
  {
    body := "";
    var i := 0;
    while i < |values|
      invariant 0 <= i <= |values|
      invariant body == Lines(Messages(values[..i]))
    {
      var errors := values[i].errors;
      var j := 0;
      assert Messages(values[..i]) + EntryMessages(errors[..0]) == Messages(values[..i]);
      while j < |errors|
        invariant 0 <= j <= |errors|
        invariant body == Lines(Messages(values[..i]) + EntryMessages(errors[..j]))
      {
        MessageAdded(Messages(values[..i]), errors, j);
        body := body + errors[j].errorMessage + "\n";
        j := j + 1;
      }
      EntryAdded(values, i);
      i := i + 1;
    }
    assert values[..i] == values;
    LinesShape(Messages(values));
    NoMessagesIffNoErrors(values);
  }

  /** One more error of the current entry adds its message as one more line. */
  lemma MessageAdded(done: seq<string>, errors: seq<ModelError>, j: nat)
    requires j < |errors|
    ensures Lines(done + EntryMessages(errors[..j + 1]))
      == Lines(done + EntryMessages(errors[..j])) + errors[j].errorMessage + "\n"
  {
    var before := done + EntryMessages(errors[..j]);
    assert EntryMessages(errors[..j + 1]) == EntryMessages(errors[..j]) + [errors[j].errorMessage];
    assert done + EntryMessages(errors[..j + 1]) == before + [errors[j].errorMessage];
    assert (before + [errors[j].errorMessage])[..|before|] == before;
  }

  /** After the last error of entry `i`, the messages so far are those of the first `i + 1` entries. */
  lemma EntryAdded(values: seq<ModelStateEntry>, i: nat)
    requires i < |values|
    ensures Messages(values[..i]) + EntryMessages(values[i].errors[..|values[i].errors|]) == Messages(values[..i + 1])
  {
    assert values[i].errors[..|values[i].errors|] == values[i].errors;
    assert values[..i + 1][..i] == values[..i];
  }

  /** The length of the lines, whether they are empty, and how they end. */
  lemma {:induction false} LinesShape(ms: seq<string>)
    ensures |Lines(ms)| == TotalLength(ms) + |ms|
    ensures Lines(ms) == "" <==> ms == []
    ensures ms != [] ==> Lines(ms)[|Lines(ms)| - 1] == '\n'
  {
    if ms != [] {
      LinesShape(ms[..|ms| - 1]);
    }
  }

  /** Lines of a concatenation are the concatenation of the lines: order is kept. */
  lemma {:induction false} LinesAppend(a: seq<string>, b: seq<string>)
    ensures Lines(a + b) == Lines(a) + Lines(b)
  {
    if b != [] {
      assert (a + b)[..|a + b| - 1] == a + b[..|b| - 1];
      LinesAppend(a, b[..|b| - 1]);
    } else {
      assert a + b == a;
    }
  }

  /** The messages of two runs of entries are those of the first run, then those of the second. */
  lemma {:induction false} MessagesAppend(v: seq<ModelStateEntry>, w: seq<ModelStateEntry>)
    ensures Messages(v + w) == Messages(v) + Messages(w)
  {
    if w != [] {
      assert (v + w)[..|v + w| - 1] == v + w[..|w| - 1];
      MessagesAppend(v, w[..|w| - 1]);
    } else {
      assert v + w == v;
    }
  }

  /** There is a message exactly when some entry holds an error. */
  lemma {:induction false} NoMessagesIffNoErrors(values: seq<ModelStateEntry>)
    ensures Messages(values) == [] <==> NoErrors(values)
  {
    if values != [] {
      var init := values[..|values| - 1];
      NoMessagesIffNoErrors(init);
      var last := EntryMessages(values[|values| - 1].errors);
      assert Messages(values) == [] <==> Messages(init) == [] && last == [];
      assert NoErrors(values) <==> NoErrors(init) && values[|values| - 1].errors == [] by {
        assert forall i :: 0 <= i < |init| ==> init[i] == values[i];
      }
    }
  }
}
