/** `SocketServer`: the lazily created singleton that owns the Socket.IO
    server, its idempotent `init`, and `getIO`, which fails until `init`
    has run. Emitting an event to a room is recorded on the server. */
module Sockets {
  import opened Wrappers

  /** The payloads pushed to a user's room. */
  datatype Event =
    | BulkProgress(processed: int, total: int, userId: int)
    | StatusUpdate(logId: int, status: string, email: string, error: Option<string>)

  datatype Emission = Emission(room: string, name: string, event: Event)

  /** A Socket.IO server: what has been emitted through it, in order. */
  class IoServer {
    var emitted: seq<Emission>

    constructor ()
      ensures emitted == []
    {
      emitted := [];
    }

    /** `io.to(room).emit(name, event)`; `fails` says whether the transport
        throws, in which case nothing is delivered. */
    method Emit(room: string, name: string, event: Event, fails: bool) returns (ok: bool)
      modifies this
      ensures ok == !fails
      ensures emitted == old(emitted) + (if fails then [] else [Emission(room, name, event)])
    {
      if fails {
        return false;
      }
      emitted := emitted + [Emission(room, name, event)];
      ok := true;
    }
  }

  const NotInitialized: string := "Socket.io not initialized. Call init() first."

  class SocketServer {
    var io: Option<IoServer>

    constructor ()
      ensures io.None?
    {
      io := None;
    }

    /** The objects an emission through this server may change. */
    function Listeners(): set<object>
      reads this
    {
      if io.Some? then {io.value} else {}
    }

    /** `init`: the first call creates the server; every later call returns
        that same server and creates nothing. */
    method Init() returns (server: IoServer)
      modifies this
      ensures old(io).Some? ==> server == old(io).value && io == old(io)
      ensures old(io).None? ==> fresh(server) && server.emitted == [] && io == Some(server)
    {
      if io.Some? {
        return io.value;
      }
      server := new IoServer();
      io := Some(server);
    }

    /** `getIO`: the server `init` created, or the error thrown before. */
    function GetIO(): (r: Result<IoServer, string>)
      reads this
      ensures r.Failure? <==> io.None?
      ensures r.Failure? ==> r.error == NotInitialized
      ensures r.Success? ==> io == Some(r.value)
    {
      if io.None? then Failure(NotInitialized) else Success(io.value)
    }
  }

  /** The static `instance` slot behind `getInstance`. */
  class Singleton {
    var instance: Option<SocketServer>

    constructor ()
      ensures instance.None?
    {
      instance := None;
    }

    /** `getInstance`: creates the server on the first call and returns that
        same object on every call. */
    method GetInstance() returns (s: SocketServer)
      modifies this
      ensures old(instance).Some? ==> s == old(instance).value && instance == old(instance)
      ensures old(instance).None? ==> fresh(s) && s.io.None? && instance == Some(s)
      ensures instance == Some(s)
    {
      if instance.Some? {
        return instance.value;
      }
      s := new SocketServer();
      instance := Some(s);
    }
  }

  /** After `init`, `getIO` returns the server `init` returned, and a second
      `init` returns it too and creates nothing. */
  method InitThenGetIO(s: SocketServer) returns (first: IoServer, second: IoServer)
    modifies s
    ensures s.GetIO() == Success(first)
    ensures second == first
    ensures old(s.io).Some? ==> first == old(s.io).value
  {
    first := s.Init();
    second := s.Init();
  }
}
