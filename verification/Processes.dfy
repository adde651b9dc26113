/** The child process of an S3TP session (src/process.cpp), seen from HORST. */
module Processes {
  import opened Framing

  const SIGTERM: int := 15

  /** `open` says that the three pipes exist, `reading` that output is polled, `killed` that
      HORST sent SIGTERM. `stdin` is what was written to the input pipe. */
  datatype ProcessView = ProcessView(
    command: bytes,
    hasIn: bool,
    stdin: bytes,
    open: bool,
    reading: bool,
    killed: bool)
  {
    function Input(data: bytes): ProcessView {
      if hasIn then this.(stdin := stdin + data) else this
    }

    function CloseInput(): ProcessView {
      this.(hasIn := false)
    }

    /** The exit callback closes the pipes. */
    function Exited(): ProcessView {
      if open then this.(hasIn := false, open := false) else this
    }
  }

  function Spawned(command: bytes): ProcessView {
    ProcessView(command, true, [], true, false, false)
  }

  class Process {
    const command: bytes
    var hasIn: bool
    var stdin: bytes
    var stdioCount: nat
    var reading: bool
    var killed: bool
    var exitCode: int
    var signal: int

    function View(): ProcessView
      reads this
    {
      ProcessView(command, hasIn, stdin, stdioCount == 3, reading, killed)
    }

    constructor (command: bytes)
      ensures View() == Spawned(command)
    {
      this.command := command;
      hasIn, stdin, stdioCount := true, [], 3;
      reading, killed, exitCode, signal := false, false, -1, 0;
    }

    method Kill()
      modifies this
      ensures View() == old(View()).(killed := true)
    {
      killed := true;
    }

    method StartOutput()
      modifies this
      ensures View() == old(View()).(reading := true)
    {
      reading := true;
    }

    method StopOutput()
      modifies this
      ensures View() == old(View()).(reading := false)
    {
      reading := false;
    }

    method Input(data: bytes)
      modifies this
      ensures View() == old(View()).Input(data)
    {
      if !hasIn {
        return;
      }
      stdin := stdin + data;
    }

    method CloseInput()
      modifies this`hasIn
      ensures View() == old(View()).CloseInput()
    {
      if !hasIn {
        return;
      }
      hasIn := false;
    }

    /** The libuv exit callback. Only a process that was not terminated runs its own. */
    method ExitCallback(status: int, sig: int) returns (runsExit: bool)
      modifies this
      ensures View() == old(View()).Exited()
      ensures runsExit <==> sig != SIGTERM
      ensures exitCode == status && signal == sig
    {
      exitCode := status;
      signal := sig;
      if stdioCount == 3 {
        CloseInput();
        stdioCount := 0;
      }
      runsExit := signal != SIGTERM;
    }
  }
}
