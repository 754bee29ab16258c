/** The tabs of the TUI and what its views and its input routing share. */
module Tabs {
  import opened Basics

  datatype Tab = General | Processes | Network | Containers | Kube | Gpu

  const TABS: seq<Tab> := [General, Processes, Network, Containers, Kube, Gpu]

  function Label(t: Tab): string {
    match t
    case General => "General"
    case Processes => "Processes"
    case Network => "Network"
    case Containers => "Containers"
    case Kube => "Kube"
    case Gpu => "GPU"
  }

  function TabIndex(t: Tab): (i: nat)
    ensures i < |TABS| && TABS[i] == t
  {
    match t
    case General => 0
    case Processes => 1
    case Network => 2
    case Containers => 3
    case Kube => 4
    case Gpu => 5
  }

  function NextTab(t: Tab): Tab {
    TABS[(TabIndex(t) + 1) % |TABS|]
  }

  function PrevTab(t: Tab): Tab {
    TABS[(TabIndex(t) + |TABS| - 1) % |TABS|]
  }

  const MAX_FILTER_LEN: nat := 256

  /** The cursor kept on one of `count` rows, or at zero when there is none. */
  function Clamped(selected: int, count: nat): nat {
    if count == 0 || selected < 0 then 0 else Min(selected, count - 1)
  }

  /** The row asked for, or the last or first one if it lies beyond. */
  lemma ClampedIsNearest(target: int, count: nat)
    requires count > 0
    ensures Clamped(target, count) == if target < 0 then 0 else if target >= count then count - 1 else target
  {
  }

  /** The length in bytes that the input limit is checked against. */
  function Utf8Len(s: string): nat {
    if s == "" then 0
    else
      var c := s[|s| - 1] as int;
      Utf8Len(s[..|s| - 1]) + if c < 0x80 then 1 else if c < 0x800 then 2 else if c < 0x1_0000 then 3 else 4
  }
}
