/** How `SysLog.syslog` reads its destination string: which sink it builds
    and with what parameters. Building the handler itself is not modelled. */
module Destinations {
  import opened Text

  /** The syslog UDP port used for a remote host and for the fallback. */
  const SYSLOG_PORT: nat := 514
  /** `maxBytes` of the rotating file handler: 5 MiB. */
  const MAX_BYTES: nat := 5 * 1024 * 1024
  /** `backupCount` of the rotating file handler. */
  const BACKUP_COUNT: nat := 5

  /** Where a local syslog handler sends: a Unix socket path or a UDP host and port. */
  datatype SyslogAddress = UnixSocket(path: string) | Udp(host: string, port: nat)

  /** The sink a destination string selects. */
  datatype Destination =
    | Printer
      // `logging.StreamHandler()` with no argument, for both 'stdout' and 'stderr'
    | Stream
    | LocalSyslog(address: SyslogAddress)
    | Remote(host: string, port: nat)
    | RotatingFile(path: string, maxBytes: nat, backupCount: nat)

  /** The local syslog address: the platform's socket when it exists on
      disk, otherwise UDP to localhost. Whether the system is Darwin and
      whether the socket path exists are facts about the host, given as
      parameters. */
  function LocalAddress(onDarwin: bool, socketExists: bool): (a: SyslogAddress)
    ensures a.UnixSocket? <==> socketExists
    ensures a.UnixSocket? ==> a.path == if onDarwin then "/var/run/syslog" else "/dev/log"
    ensures a.Udp? ==> a.host == "localhost" && a.port == SYSLOG_PORT
  {
    var path := if onDarwin then "/var/run/syslog" else "/dev/log";
    if socketExists then UnixSocket(path) else Udp("localhost", SYSLOG_PORT)
  }

  /** `destination.lower().startswith('host:')`. */
  predicate HostPrefixed(destination: string)
  {
    "host:" <= Lower(destination)
  }

  /** The branches of `syslog`, taken in order: 'print', then 'stdout' or
      'stderr', then the empty string, then a 'host:' prefix in any case,
      and a file path for everything else. */
  function Classify(destination: string, onDarwin: bool, socketExists: bool): (r: Destination)
    ensures r.Printer? <==> destination == "print"
    ensures r.Stream? <==> destination == "stdout" || destination == "stderr"
    ensures r.LocalSyslog? <==> destination == ""
    ensures r.LocalSyslog? ==> r.address == LocalAddress(onDarwin, socketExists)
    ensures r.Remote? <==> HostPrefixed(destination)
    ensures r.Remote? ==> r.host == Strip(destination[5..]) && r.port == SYSLOG_PORT
    ensures r.RotatingFile? ==>
      r.path == destination && r.maxBytes == MAX_BYTES && r.backupCount == BACKUP_COUNT
  {
    assert destination == "print" || destination == "stdout" || destination == "stderr" ==>
      !HostPrefixed(destination) by {
      if destination == "print" || destination == "stdout" || destination == "stderr" {
        assert Lower(destination)[0] == destination[0];
      }
    }
    if destination == "print" then Printer
    else if destination == "stdout" || destination == "stderr" then Stream
    else if destination == "" then LocalSyslog(LocalAddress(onDarwin, socketExists))
    else if HostPrefixed(destination) then Remote(Strip(destination[5..]), SYSLOG_PORT)
    else RotatingFile(destination, MAX_BYTES, BACKUP_COUNT)
  }

  /** A destination string that selects `d`. */
  function Render(d: Destination): string
  {
    match d
    case Printer => "print"
    case Stream => "stderr"
    case LocalSyslog(_) => ""
    case Remote(host, _) => "host:" + host
    case RotatingFile(path, _, _) => path
  }

  /** The destinations `Classify` can produce on a host. */
  predicate Canonical(d: Destination, onDarwin: bool, socketExists: bool)
  {
    match d
    case Printer => true
    case Stream => true
    case LocalSyslog(a) => a == LocalAddress(onDarwin, socketExists)
    case Remote(host, port) =>
      port == SYSLOG_PORT && (host == [] || (!IsSpace(host[0]) && !IsSpace(host[|host| - 1])))
    case RotatingFile(path, maxBytes, backupCount) =>
      && maxBytes == MAX_BYTES && backupCount == BACKUP_COUNT
      && path != "print" && path != "stdout" && path != "stderr" && path != ""
      && !HostPrefixed(path)
  }

  /** Every destination string selects a canonical destination. */
  lemma ClassifyCanonical(destination: string, onDarwin: bool, socketExists: bool)
    ensures Canonical(Classify(destination, onDarwin, socketExists), onDarwin, socketExists)
  {
  }

  /** Every canonical destination is selected by the string `Render` gives. */
  lemma ClassifyRender(d: Destination, onDarwin: bool, socketExists: bool)
    requires Canonical(d, onDarwin, socketExists)
    ensures Classify(Render(d), onDarwin, socketExists) == d
  {
    if d.Remote? {
      var s := Render(d);
      assert s[5..] == d.host;
      assert Lower(s)[..5] == "host:";
      StripFixed(d.host);
    }
  }
}
