/**
 Machines that keep one entry per key, as both log limiters do: a call reads and rewrites
 only the entry of its own key.  `step` is the behaviour on one key; a run over many keys is
 shown to be nothing but the separate runs of each key.
 */
module KeyedState {
  import opened Wrappers

  datatype Call<+C> = Call(key: string, arg: C)

  /** The entry of one key and the answers given so far. */
  datatype Track<+E, +A> = Track(entry: Option<E>, answers: seq<A>)

  /** All entries and the answers given so far. */
  datatype Table<E, +A> = Table(entries: map<string, E>, answers: seq<A>)

  function Lookup<E>(m: map<string, E>, key: string): Option<E> {
    if key in m then Some(m[key]) else None
  }

  function Put<E>(m: map<string, E>, key: string, e: Option<E>): map<string, E> {
    match e
    case None => m - {key}
    case Some(v) => m[key := v]
  }

  /** One key on its own, starting with no entry. */
  function RunOne<E, C, A>(step: (Option<E>, C) -> (Option<E>, A), args: seq<C>): (r: Track<E, A>)
    ensures |r.answers| == |args|
  {
    if args == [] then
      Track(None, [])
    else
      var before := RunOne(step, args[..|args| - 1]);
      var (entry, answer) := step(before.entry, args[|args| - 1]);
      Track(entry, before.answers + [answer])
  }

  function StepKey<E, C, A>(step: (Option<E>, C) -> (Option<E>, A), m: map<string, E>, c: Call<C>): (map<string, E>, A) {
    var (entry, answer) := step(Lookup(m, c.key), c.arg);
    (Put(m, c.key, entry), answer)
  }

  /** All keys together, starting with an empty table. */
  function RunAll<E, C, A>(step: (Option<E>, C) -> (Option<E>, A), calls: seq<Call<C>>): (r: Table<E, A>)
    ensures |r.answers| == |calls|
  {
    if calls == [] then
      Table(map[], [])
    else
      var before := RunAll(step, calls[..|calls| - 1]);
      var (entries, answer) := StepKey(step, before.entries, calls[|calls| - 1]);
      Table(entries, before.answers + [answer])
  }

  /** The arguments of the calls on `key`, in order. */
  function ArgsOf<C>(calls: seq<Call<C>>, key: string): (r: seq<C>) {
    if calls == [] then []
    else
      var last := calls[|calls| - 1];
      ArgsOf(calls[..|calls| - 1], key) + if last.key == key then [last.arg] else []
  }

  /** The answers to the calls on `key`, in order. */
  function AnswersOf<C, A>(calls: seq<Call<C>>, answers: seq<A>, key: string): (r: seq<A>)
    requires |calls| == |answers|
  {
    if calls == [] then []
    else
      var n := |calls| - 1;
      AnswersOf(calls[..n], answers[..n], key) + if calls[n].key == key then [answers[n]] else []
  }

  /** Keys do not disturb each other: what a key is answered, and the entry it ends with, are
      those of a machine that was given this key's calls and no others. */
  lemma {:induction false} KeysAreIndependent<E, C, A>(step: (Option<E>, C) -> (Option<E>, A), calls: seq<Call<C>>, key: string)
    ensures var all := RunAll(step, calls);
            RunOne(step, ArgsOf(calls, key)) == Track(Lookup(all.entries, key), AnswersOf(calls, all.answers, key))
  {
    if calls == [] {
    } else {
      var n := |calls| - 1;
      var before, args := RunAll(step, calls[..n]), ArgsOf(calls[..n], key);
      KeysAreIndependent(step, calls[..n], key);
      var (entries, answer) := StepKey(step, before.entries, calls[n]);
      assert RunAll(step, calls) == Table(entries, before.answers + [answer]);
      assert (before.answers + [answer])[..n] == before.answers;
      if calls[n].key == key {
        OneMore(step, args, calls[n].arg);
      } else {
        assert ArgsOf(calls, key) == args;
      }
    }
  }

  lemma OneMore<E, C, A>(step: (Option<E>, C) -> (Option<E>, A), args: seq<C>, arg: C)
    ensures var before := RunOne(step, args);
            var (entry, answer) := step(before.entry, arg);
            RunOne(step, args + [arg]) == Track(entry, before.answers + [answer])
  {
    assert (args + [arg])[..|args|] == args;
  }

  lemma OneMoreCall<E, C, A>(step: (Option<E>, C) -> (Option<E>, A), calls: seq<Call<C>>, c: Call<C>)
    ensures var before := RunAll(step, calls);
            var (entries, answer) := StepKey(step, before.entries, c);
            RunAll(step, calls + [c]) == Table(entries, before.answers + [answer])
  {
    assert (calls + [c])[..|calls|] == calls;
  }

  lemma OneMoreOf<C, A>(calls: seq<Call<C>>, answers: seq<A>, c: Call<C>, a: A, key: string)
    requires |calls| == |answers|
    ensures ArgsOf(calls + [c], key) == ArgsOf(calls, key) + if c.key == key then [c.arg] else []
    ensures AnswersOf(calls + [c], answers + [a], key) == AnswersOf(calls, answers, key) + if c.key == key then [a] else []
  {
    assert (calls + [c])[..|calls|] == calls && (answers + [a])[..|answers|] == answers;
  }
}
