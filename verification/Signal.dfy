/** Killing an owned process through a pidfd, while processes exit and PIDs are reused at any moment. */
module Signal {
  import opened PyText
  import opened Processes

  /** Who receives SIGKILL: the pidfd is opened at `open`, the start token read at `read`, the signal
      sent at `send`, each a moment of the path `ws`. `None` means nobody. */
  ghost function Signalled(ws: seq<World>, pid: int, expected: string, open: nat, read: nat, send: nat): Option<nat>
    requires Path(ws) && open <= read <= send < |ws| && ValidWorld(ws[read])
  {
    // The descriptor is bound to the generation that holds the PID when it is opened.
    if pid !in ws[open].table then None
    else
      var bound := ws[open].table[pid].gen;
      if pid !in ws[read].table || TokenAt(ws[read], pid) != expected then None
      else if pid in ws[send].table && ws[send].table[pid].gen == bound then Some(bound)
      else None
  }

  /** If the token read at `read` is the one recorded for `gen`, that generation holds the PID then,
      and already held it when the pidfd was opened. */
  lemma TokenReadBindsGeneration(ws: seq<World>, pid: int, gen: nat, owned: nat, open: nat, read: nat)
    requires Path(ws) && owned <= open <= read < |ws|
    requires ValidWorld(ws[owned]) && ValidWorld(ws[read])
    requires pid in ws[owned].table && ws[owned].table[pid].gen == gen
    requires pid in ws[read].table && TokenAt(ws[read], pid) == TokenAt(ws[owned], pid)
    ensures ws[read].table[pid].gen == gen
    ensures pid in ws[open].table && ws[open].table[pid].gen == gen
  {
    PathValid(ws, owned, read);
    var births := ws[read].births;
    assert births[gen] == ws[owned].births[gen];
    TokenNamesGeneration(births, ws[read].table[pid].gen, gen);
    HoldsBetween(ws, owned, open, read, pid, gen);
  }

  /** Over all interleavings, SIGKILL reaches the generation whose token was recorded at ownership, and
      does so exactly when that generation still holds its PID at the send; otherwise it reaches nobody. */
  lemma SignalReachesOnlyRecorded(ws: seq<World>, pid: int, gen: nat, owned: nat, open: nat, read: nat, send: nat)
    requires Path(ws) && owned <= open <= read <= send < |ws| && ValidWorld(ws[owned]) && ValidWorld(ws[read])
    requires pid in ws[owned].table && ws[owned].table[pid].gen == gen
    ensures Signalled(ws, pid, TokenAt(ws[owned], pid), open, read, send)
         == if pid in ws[send].table && ws[send].table[pid].gen == gen then Some(gen) else None
  {
    if pid in ws[send].table && ws[send].table[pid].gen == gen {
      HoldsBetween(ws, owned, open, send, pid, gen);
      HoldsBetween(ws, owned, read, send, pid, gen);
      PathValid(ws, owned, read);
    } else if pid in ws[read].table && TokenAt(ws[read], pid) == TokenAt(ws[owned], pid) {
      TokenReadBindsGeneration(ws, pid, gen, owned, open, read);
    }
  }
}
