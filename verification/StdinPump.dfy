/**
 * The thread that passes data between a shell subprocess and the protocol
 * descriptor: which descriptors it waits on, and what becomes of standard input
 * when the subprocess takes it in arbitrary portions.
 */
module StdinPump {
  import opened Bytes
  import opened ShellProtocol

  datatype Fd = Protocol | Stdinout | Stderr
  datatype Dead = Nobody | Dies(fd: Fd)

  const ID_STDIN: byte := 0
  const ID_CLOSE_STDIN: byte := 4

  /** The standard input carried by some packets. */
  function StdinOf(ps: seq<Packet>): bytes {
    if ps == [] then []
    else StdinOf(ps[..|ps| - 1]) + if ps[|ps| - 1].id == ID_STDIN then ps[|ps| - 1].payload else []
  }

  lemma StdinMore(ps: seq<Packet>, p: Packet)
    ensures StdinOf(ps + [p]) == StdinOf(ps) + if p.id == ID_STDIN then p.payload else []
  {
    assert (ps + [p])[..|ps|] == ps;
  }

  class Subprocess {
    const raw: bool               // SubprocessType::kRaw
    var protocolOpen: bool
    var stdinOpen: bool           // stdinout_sfd_ != -1
    var stderrOpen: bool
    var readSet: set<Fd>          // master_read_set
    var writeSet: set<Fd>         // master_write_set
    var inputLeft: nat            // input_bytes_left_
    var input: Packet             // what the last Read left in the buffer
    var incoming: seq<Packet>     // what further Reads will yield
    var written: bytes            // what the subprocess has been given
    ghost var consumed: seq<Packet>

    /** The subprocess has been given a beginning of the standard input received. */
    ghost predicate Sound()
      reads this
    {
      inputLeft <= |input.payload| && written <= StdinOf(consumed)
    }

    /** While standard input is open, what it has not been given is exactly the unwritten part of the last packet. */
    ghost predicate InStep()
      reads this
    {
      stdinOpen ==>
        && inputLeft <= |input.payload|
        && written + input.payload[|input.payload| - inputLeft..] == StdinOf(consumed)
    }

    /** Either the next packet is awaited, or room for the rest of this one. */
    ghost predicate Balanced()
      reads this
    {
      && (protocolOpen && stdinOpen ==>
            (Protocol in readSet <==> inputLeft == 0) && (Stdinout in writeSet <==> inputLeft > 0))
      && (!stdinOpen ==> Stdinout !in writeSet && (Protocol in readSet ==> inputLeft == 0))
    }

    constructor (raw: bool, incoming: seq<Packet>, protocol: bool, stdin: bool, stderr: bool)
      ensures Sound() && InStep() && this.incoming == incoming && consumed == [] && written == [] && inputLeft == 0
      ensures protocolOpen == protocol && stdinOpen == stdin && stderrOpen == stderr
    {
      this.raw, protocolOpen, stdinOpen, stderrOpen := raw, protocol, stdin, stderr;
      readSet, writeSet, inputLeft, input := {}, {}, 0, Packet(255, []);
      this.incoming, written, consumed := incoming, [], [];
    }

    /** A Read that succeeds. */
    method NextPacket()
      requires incoming != []
      modifies this`incoming, this`consumed, this`input
      ensures consumed + incoming == old(consumed + incoming)
      ensures StdinOf(consumed) == StdinOf(old(consumed)) + if input.id == ID_STDIN then input.payload else []
    {
      MoveOne(consumed, incoming);
      StdinMore(consumed, incoming[0]);
      input, incoming, consumed := incoming[0], incoming[1..], consumed + [incoming[0]];
    }

    /** The part of PassInput that takes a new packet. */
    method TakePacket() returns (dead: Dead, finished: bool)
      requires Sound() && InStep() && inputLeft == 0
      modifies this`incoming, this`consumed, this`input, this`inputLeft
      ensures Sound() && InStep() && consumed + incoming == old(consumed + incoming)
      ensures !stdinOpen ==> inputLeft == 0
      ensures finished ==> inputLeft == 0
      ensures dead == Nobody || (finished && (dead == Dies(Protocol) || dead == Dies(Stdinout)))
    {
      assert input.payload[|input.payload|..] == [];
      var ok: bool := *;
      if !ok || incoming == [] {
        return Dies(Protocol), true;
      }
      NextPacket();
      dead, finished := Dispatch();
    }

    /** What is done with a packet by its id. */
    method Dispatch() returns (dead: Dead, finished: bool)
      requires Sound() && inputLeft == 0
      requires stdinOpen ==> written + (if input.id == ID_STDIN then input.payload else []) == StdinOf(consumed)
      modifies this`inputLeft
      ensures Sound() && InStep()
      ensures !stdinOpen ==> inputLeft == 0
      ensures finished ==> inputLeft == 0
      ensures dead == Nobody || (finished && dead == Dies(Stdinout))
    {
      assert input.payload[|input.payload|..] == [] && input.payload[0..] == input.payload;
      dead, finished := Nobody, false;
      if stdinOpen {
        if input.id == ID_STDIN {
          inputLeft := |input.payload|;
        } else if input.id == ID_CLOSE_STDIN && raw {
          var shut: bool := *;
          return if shut then Nobody else Dies(Stdinout), true;
        }
      }
    }

    /** PassInput; writes may take any part, block or fail. */
    method PassInput() returns (dead: Dead)
      requires Sound() && InStep() && (inputLeft == 0 || stdinOpen)
      modifies this`incoming, this`consumed, this`input, this`inputLeft, this`written
      ensures Sound() && consumed + incoming == old(consumed + incoming)
      ensures dead != Dies(Stdinout) ==> InStep()
      ensures dead != Nobody ==> inputLeft == 0
      ensures !stdinOpen ==> inputLeft == 0
      ensures old(inputLeft) > 0 ==> incoming == old(incoming) && consumed == old(consumed) && dead != Dies(Protocol)
      ensures dead == Nobody || dead == Dies(Protocol) || dead == Dies(Stdinout)
    {
      dead := Nobody;
      if inputLeft == 0 {
        var finished;
        dead, finished := TakePacket();
        if finished {
          return;
        }
      }
      if inputLeft > 0 {
        var index := |input.payload| - inputLeft;
        var bytes: int, again: bool := *, *;
        if bytes == 0 || (bytes < 0 && !again) {
          inputLeft := 0;
          return Dies(Stdinout);
        } else if 0 < bytes <= inputLeft {
          Give(written, input.payload, index, bytes, StdinOf(consumed));
          written := written + input.payload[index..index + bytes];
          inputLeft := inputLeft - bytes;
        }
      }
    }

    /** PassOutput from one of the subprocess's descriptors: it, or the protocol descriptor, may turn out dead. */
    method PassOutput(fd: Fd) returns (dead: Dead)
      ensures dead == Nobody || dead == Dies(fd) || dead == Dies(Protocol)
    {
      var ended: bool, unsent: bool := *, *;
      return if ended then Dies(fd) else if unsent then Dies(Protocol) else Nobody;
    }

    /** The branch of SelectLoop taken when a packet can be read: there is never an unfinished one. */
    method OnProtocol() returns (dead: Dead)
      requires Sound() && InStep() && Balanced() && protocolOpen && Protocol in readSet
      modifies this`incoming, this`consumed, this`input, this`inputLeft, this`written, this`readSet, this`writeSet
      ensures Sound() && consumed + incoming == old(consumed + incoming)
      ensures dead != Dies(Stdinout) ==> InStep()
      ensures dead == Nobody ==> Balanced()
      ensures dead != Nobody ==> inputLeft == 0 && readSet == old(readSet) && writeSet == old(writeSet)
    {
      assert inputLeft == 0;
      dead := PassInput();
      if inputLeft != 0 {
        readSet := readSet - {Protocol};
        writeSet := writeSet + {Stdinout};
      }
    }

    /** The branch taken when the subprocess has room again: there is always an unfinished packet, and none is read. */
    method OnStdin() returns (dead: Dead)
      requires Sound() && InStep() && Balanced() && protocolOpen && stdinOpen && Stdinout in writeSet
      modifies this`incoming, this`consumed, this`input, this`inputLeft, this`written, this`readSet, this`writeSet
      ensures Sound() && consumed == old(consumed) && incoming == old(incoming)
      ensures dead != Dies(Stdinout) ==> InStep()
      ensures dead == Nobody ==> Balanced()
      ensures dead == Nobody || dead == Dies(Stdinout)
      ensures dead == Dies(Stdinout) ==> inputLeft == 0 && Protocol in readSet && Stdinout !in writeSet
    {
      assert inputLeft > 0;
      dead := PassInput();
      if inputLeft == 0 {
        readSet := readSet + {Protocol};
        writeSet := writeSet - {Stdinout};
      }
    }

    /** One round of SelectLoop, for any descriptors that select may report. */
    method Round(canRead: set<Fd>, canWrite: set<Fd>) returns (dead: Dead)
      requires Sound() && InStep() && Balanced() && protocolOpen && canRead <= readSet && canWrite <= writeSet
      modifies this`incoming, this`consumed, this`input, this`inputLeft, this`written, this`readSet, this`writeSet
      ensures Sound() && consumed + incoming == old(consumed + incoming)
      ensures dead == Nobody ==> InStep() && Balanced()
      ensures dead == Dies(Stderr) ==> InStep() && Balanced()
      ensures dead == Dies(Stdinout) ==> Protocol in readSet ==> inputLeft == 0
    {
      dead := Nobody;
      if stdinOpen && Stdinout in canRead {
        dead := PassOutput(Stdinout);
      }
      if dead == Nobody && stderrOpen && Stderr in canRead {
        dead := PassOutput(Stderr);
      }
      if dead == Nobody && Protocol in canRead {
        dead := OnProtocol();
      }
      if dead == Nobody && stdinOpen && Stdinout in canWrite {
        dead := OnStdin();
      }
    }

    /**
     * PassDataStreams, for any number of rounds and whatever select reports in
     * each: whatever packets the client wrote, and however far their pieces got
     * here, the subprocess has been given a beginning of their standard input.
     */
    method PassDataStreams()
      requires Sound() && InStep() && inputLeft == 0 && consumed == []
      modifies this
      ensures Sound() && consumed + incoming == old(incoming)
      ensures forall ps, cap :: cap > 0 && old(incoming) <= Reads(ps, cap) ==> written <= StdinOf(ps)
    {
      if !protocolOpen {
        WrittenIsSent(written, consumed, incoming);
        return;
      }
      readSet := {Protocol} + (if stdinOpen then {Stdinout} else {}) + (if stderrOpen then {Stderr} else {});
      writeSet := {};
      var rounds: nat := *;
      while rounds > 0 && protocolOpen && (stdinOpen || stderrOpen)
        invariant Sound() && consumed + incoming == old(incoming)
        invariant protocolOpen && (stdinOpen || stderrOpen) ==> InStep() && Balanced()
      {
        rounds := rounds - 1;
        var failed: bool, canRead: set<Fd>, canWrite: set<Fd> := *, *, *;
        if failed {
          stdinOpen, stderrOpen := false, false;
        } else {
          var dead := Round(canRead * readSet, canWrite * writeSet);
          if dead.Dies? {
            Bury(dead.fd);
          }
        }
      }
      WrittenIsSent(written, consumed, incoming);
    }

    /** What PassDataStreams does with a dead descriptor. */
    method Bury(fd: Fd)
      requires Sound() && (fd == Stderr ==> InStep() && Balanced())
      requires fd == Stdinout ==> Protocol in readSet ==> inputLeft == 0
      modifies this`readSet, this`writeSet, this`protocolOpen, this`stdinOpen, this`stderrOpen
      ensures Sound() && (protocolOpen && (stdinOpen || stderrOpen) ==> InStep() && Balanced())
    {
      readSet, writeSet := readSet - {fd}, writeSet - {fd};
      match fd
      case Protocol => protocolOpen, stdinOpen, stderrOpen := false, false, false;
      case Stdinout => stdinOpen := false;
      case Stderr => stderrOpen := false;
    }
  }

  lemma MoveOne(a: seq<Packet>, b: seq<Packet>)
    requires b != []
    ensures (a + [b[0]]) + b[1..] == a + b
  {}

  lemma Give(written: bytes, payload: bytes, index: nat, n: nat, all: bytes)
    requires index + n <= |payload| && written + payload[index..] == all
    ensures written + payload[index..index + n] + payload[index + n..] == all
    ensures written + payload[index..index + n] <= all
  {
    assert payload[index..] == payload[index..index + n] + payload[index + n..];
    Regroup(written, payload[index..index + n], payload[index + n..]);
  }

  /** Standard input received so far is a beginning of all that will be. */
  lemma {:induction false} StdinPrefix(ps: seq<Packet>, later: seq<Packet>)
    ensures StdinOf(ps) <= StdinOf(ps + later)
  {
    if later == [] {
      assert ps + later == ps;
    } else {
      var n := |later| - 1;
      StdinPrefix(ps, later[..n]);
      assert ps + later == (ps + later[..n]) + [later[n]];
      StdinMore(ps + later[..n], later[n]);
    }
  }

  lemma {:induction false} StdinAppend(a: seq<Packet>, b: seq<Packet>)
    ensures StdinOf(a + b) == StdinOf(a) + StdinOf(b)
  {
    if b == [] {
      assert a + b == a;
    } else {
      var n := |b| - 1;
      var last := if b[n].id == ID_STDIN then b[n].payload else [];
      StdinAppend(a, b[..n]);
      assert a + b == (a + b[..n]) + [b[n]];
      StdinMore(a + b[..n], b[n]);
      Regroup(StdinOf(a), StdinOf(b[..n]), last);
    }
  }

  lemma StdinFirst(p: Packet, rest: seq<Packet>)
    ensures StdinOf([p] + rest) == (if p.id == ID_STDIN then p.payload else []) + StdinOf(rest)
  {
    StdinAppend([p], rest);
    StdinMore([], p);
    assert [] + [p] == [p];
  }

  lemma {:induction false} StdinOfPieces(id: byte, pieces: seq<bytes>)
    ensures StdinOf(Labelled(id, pieces)) == if id == ID_STDIN then Concat(pieces) else []
  {
    if pieces == [] {
      assert Labelled(id, pieces) == [];
    } else {
      assert Labelled(id, pieces) == [Packet(id, pieces[0])] + Labelled(id, pieces[1..]);
      StdinFirst(Packet(id, pieces[0]), Labelled(id, pieces[1..]));
      StdinOfPieces(id, pieces[1..]);
    }
  }

  lemma StdinOfPacket(p: Packet, cap: nat)
    requires cap > 0
    ensures StdinOf(Labelled(p.id, Pieces(p.payload, cap))) == if p.id == ID_STDIN then p.payload else []
  {
    StdinOfPieces(p.id, Pieces(p.payload, cap));
    PiecesMean(p.payload, cap);
  }

  /** Reading in pieces does not change the standard input carried. */
  lemma {:induction false} StdinOfReads(ps: seq<Packet>, cap: nat)
    requires cap > 0
    ensures StdinOf(Reads(ps, cap)) == StdinOf(ps)
  {
    if ps != [] {
      StdinOfPacket(ps[0], cap);
      StdinAppend(Labelled(ps[0].id, Pieces(ps[0].payload, cap)), Reads(ps[1..], cap));
      StdinOfReads(ps[1..], cap);
      StdinFirst(ps[0], ps[1..]);
      assert ps == [ps[0]] + ps[1..];
    }
  }

  lemma WrittenIsSent(written: bytes, consumed: seq<Packet>, incoming: seq<Packet>)
    requires written <= StdinOf(consumed)
    ensures forall ps, cap :: cap > 0 && consumed + incoming <= Reads(ps, cap) ==> written <= StdinOf(ps)
  {
    StdinPrefix(consumed, incoming);
    forall ps, cap | cap > 0 && consumed + incoming <= Reads(ps, cap)
      ensures written <= StdinOf(ps)
    {
      var got, all := consumed + incoming, Reads(ps, cap);
      assert all == got + all[|got|..];
      StdinPrefix(got, all[|got|..]);
      StdinOfReads(ps, cap);
    }
  }
}
