/** The kubelet notifier: timer ticks and changes of the kubelet's state files, turned into notifications. */
module Notifier {
  import opened Common

  datatype EventType = IntervalBased | FSUpdate

  datatype Info = Info(event: EventType)

  const CPU_MANAGER_STATE := "cpu_manager_state"
  const MEMORY_MANAGER_STATE := "memory_manager_state"
  const KUBELET_INTERNAL_CHECKPOINT := "kubelet_internal_checkpoint"

  predicate IsStateFile(name: string) {
    name == CPU_MANAGER_STATE || name == MEMORY_MANAGER_STATE || name == KUBELET_INTERNAL_CHECKPOINT
  }

  // ---- The last element of a path, as path.Base computes it ----

  function TrimSlashes(path: string): string {
    if path != "" && path[|path| - 1] == '/' then TrimSlashes(path[..|path| - 1]) else path
  }

  function AfterLastSlash(path: string): string {
    if path == "" || path[|path| - 1] == '/' then "" else AfterLastSlash(path[..|path| - 1]) + [path[|path| - 1]]
  }

  function Base(path: string): string {
    if path == "" then "."
    else if TrimSlashes(path) == "" then "/"
    else AfterLastSlash(TrimSlashes(path))
  }

  lemma {:induction false} AfterSlash(dir: string, name: string)
    requires '/' !in name
    ensures AfterLastSlash(dir + "/" + name) == name
  {
    var path := dir + "/" + name;
    if name != "" {
      AfterSlash(dir, name[..|name| - 1]);
      assert path[..|path| - 1] == dir + "/" + name[..|name| - 1];
    }
  }

  /** A file directly in a directory is recognised by its own name, with or without trailing slashes. */
  lemma {:induction false} BaseOfFile(dir: string, name: string, slashes: nat)
    requires name != "" && '/' !in name
    ensures Base(dir + "/" + name + seq(slashes, _ => '/')) == name
  {
    var path := dir + "/" + name + seq(slashes, _ => '/');
    TrimTrailing(dir + "/" + name, slashes);
    AfterSlash(dir, name);
  }

  lemma {:induction false} TrimTrailing(path: string, slashes: nat)
    requires path != "" && path[|path| - 1] != '/'
    ensures TrimSlashes(path + seq(slashes, _ => '/')) == path
  {
    var whole := path + seq(slashes, _ => '/');
    if slashes == 0 {
      assert whole == path;
    } else {
      assert whole[..|whole| - 1] == path + seq(slashes - 1, _ => '/');
      TrimTrailing(path, slashes - 1);
    }
  }

  // ---- The notifier's loop ----

  /** What the notifier's select receives: a tick, or a file event with the path of the file. */
  datatype Trigger = Tick | File(path: string)

  predicate Relevant(t: Trigger) {
    t.File? ==> IsStateFile(Base(t.path))
  }

  function InfoOf(t: Trigger): Info {
    if t.Tick? then Info(IntervalBased) else Info(FSUpdate)
  }

  function Sent(t: Trigger): seq<Info> {
    if Relevant(t) then [InfoOf(t)] else []
  }

  /** The select loop over a trace of triggers; sending is appending to what dest receives. */
  method Run(triggers: seq<Trigger>) returns (dest: seq<Info>)
    ensures dest == FlatMap(Sent, triggers)
  {
    hide FlatMap, Base;
    dest := [];
    FlatMapNone(Sent, [], triggers);
    for k := 0 to |triggers|
      invariant dest == FlatMap(Sent, triggers[..k])
    {
      FlatMapStep(Sent, triggers, k);
      match triggers[k]
      case Tick =>
        dest := dest + [Info(IntervalBased)];
      case File(path) =>
        var basename := Base(path);
        if IsStateFile(basename) {
          dest := dest + [Info(FSUpdate)];
        } else {
          assert dest + [] == dest;
        }
    }
    assert triggers[..|triggers|] == triggers;
  }

  /** A tick is always notified; a change of a file in a watched directory exactly when it is one of the kubelet's three
      state files. */
  lemma {:induction false} NotifiedExactly(dir: string, name: string)
    requires name != "" && '/' !in name
    ensures Sent(Tick) == [Info(IntervalBased)]
    ensures Sent(File(dir + "/" + name))
         == if name in {"cpu_manager_state", "memory_manager_state", "kubelet_internal_checkpoint"} then [Info(FSUpdate)] else []
  {
    hide Base;
    BaseOfFile(dir, name, 0);
    assert dir + "/" + name + seq(0, _ => '/') == dir + "/" + name;
  }
}
