/** A device seen by the Android app: its connection state machine, with a
    guarded transition table and flags that are only ever set, and the part
    of `Device` that counts recordings still to download and derives the
    status line shown for the device. */
module DeviceModel {
  import opened Wrappers

  /** `DeviceState`: each state carries the message shown for it and whether
      the device counts as connected in it. */
  datatype DeviceState =
    | Found
    | Connected
    | Reconnect
    | Ready
    | DownloadingRecordings
    | ErrorConnectingToDevice
    | ErrorConnectingToInterface
  {
    function Message(): (m: string)
      ensures m != []
    {
      match this
      case Found => "Found device. Trying to connect"
      case Connected => "Connected."
      case Reconnect => "Trying to reconnect"
      case Ready => "Got device info."
      case DownloadingRecordings => "Downloading recordings."
      case ErrorConnectingToDevice => "Error connecting."
      case ErrorConnectingToInterface => "Error connecting to interface."
    }

    predicate IsConnected()
    {
      this == Connected || this == Ready || this == DownloadingRecordings
    }

    predicate IsError()
    {
      this == ErrorConnectingToDevice || this == ErrorConnectingToInterface
    }
  }

  /** The table in `updateState`: which moves away from `from` are allowed. */
  predicate ValidSwitch(from: DeviceState, to: DeviceState)
  {
    match from
    case Found => true
    case Reconnect => true
    case Connected =>
      to == Ready || to == ErrorConnectingToInterface || to == ErrorConnectingToDevice || to == Reconnect
    case Ready =>
      to == DownloadingRecordings || to == ErrorConnectingToInterface || to == ErrorConnectingToDevice || to == Reconnect
    case DownloadingRecordings =>
      to == Ready || to == ErrorConnectingToInterface || to == ErrorConnectingToDevice || to == Reconnect
    case ErrorConnectingToDevice =>
      to == Connected || to == ErrorConnectingToDevice || to == Reconnect
    case ErrorConnectingToInterface =>
      to == Connected || to == ErrorConnectingToDevice || to == Reconnect
  }

  /** `updateState(to)`: the state after a requested move; a request for the
      current state or a move the table rejects leaves the state as it is. */
  function NextState(from: DeviceState, to: DeviceState): (r: DeviceState)
    ensures r == from || r == to
    ensures r == to <==> from == to || ValidSwitch(from, to)
  {
    if from == to then from else if ValidSwitch(from, to) then to else from
  }

  /** Everything a `StateMachine` holds. */
  datatype Machine = Machine(state: DeviceState, hasRecordingList: bool, hasDeviceInfo: bool, hasConnected: bool)

  /** The calls a `StateMachine` accepts. */
  datatype Input =
    | OnDownloadingRecordings(downloading: bool)
    | OnConnected
    | OnConnectionToDeviceOnly
    | OnConnectionFailed
    | OnConnecting
    | OnGotDeviceInfo
    | OnUpdatedRecordingList

  /** A new state machine: in `Found`, no flag set. */
  const InitialMachine := Machine(Found, false, false, false)

  /** What each call does to the machine. */
  function Apply(m: Machine, input: Input): (r: Machine)
    ensures m.hasRecordingList ==> r.hasRecordingList
    ensures m.hasDeviceInfo ==> r.hasDeviceInfo
    ensures m.hasConnected ==> r.hasConnected
  {
    match input
    case OnDownloadingRecordings(downloading) =>
      if downloading then m.(state := NextState(m.state, DownloadingRecordings))
      else if m.state == DownloadingRecordings then m.(state := NextState(m.state, Ready))
      else m
    case OnConnected =>
      var m' := m.(hasConnected := true);
      if !m.state.IsConnected() then
        m'.(state := NextState(m.state, if m.hasDeviceInfo then Ready else Connected))
      else m'
    case OnConnectionToDeviceOnly =>
      m.(hasConnected := true, state := NextState(m.state, ErrorConnectingToInterface))
    case OnConnectionFailed =>
      m.(state := NextState(m.state, ErrorConnectingToDevice))
    case OnConnecting =>
      if m.hasConnected then m.(state := NextState(m.state, Reconnect)) else m
    case OnGotDeviceInfo =>
      m.(hasDeviceInfo := true, state := NextState(m.state, Ready))
    case OnUpdatedRecordingList =>
      m.(hasRecordingList := true)
  }

  /** The machine after a sequence of calls. */
  function ApplyAll(m: Machine, inputs: seq<Input>): (r: Machine)
    ensures m.hasRecordingList ==> r.hasRecordingList
    ensures m.hasDeviceInfo ==> r.hasDeviceInfo
    ensures m.hasConnected ==> r.hasConnected
    decreases |inputs|
  {
    if inputs == [] then m else ApplyAll(Apply(m, inputs[0]), inputs[1..])
  }

  /** A move the table rejects leaves the state unchanged. */
  lemma InvalidSwitchKeepsState(from: DeviceState, to: DeviceState)
    requires !ValidSwitch(from, to)
    ensures NextState(from, to) == from
  {
  }

  /** From `Found` and from `Reconnect` every move is allowed. */
  lemma FoundAndReconnectAllowAll(to: DeviceState)
    ensures ValidSwitch(Found, to) && ValidSwitch(Reconnect, to)
    ensures NextState(Found, to) == to && NextState(Reconnect, to) == to
  {
  }

  /** From an error state the only moves allowed lead to `Connected`,
      `ErrorConnectingToDevice` or `Reconnect`. */
  lemma ErrorStateTargets(from: DeviceState, to: DeviceState)
    requires from.IsError()
    ensures ValidSwitch(from, to) <==> (to == Connected || to == ErrorConnectingToDevice || to == Reconnect)
  {
  }

  /** `connected()` in an error state, once device info is known, asks for
      `Ready`; the table rejects that, so the machine stays in the error
      state (only `hasConnected` changes). */
  lemma ConnectedFromErrorWithInfoStays(m: Machine)
    requires m.state.IsError() && m.hasDeviceInfo
    ensures Apply(m, OnConnected) == m.(hasConnected := true)
  {
  }

  /** `downloadingRecordings(false)` moves the machine only out of
      `DownloadingRecordings`, and then to `Ready`. */
  lemma StopDownloadingOnlyFromDownloading(m: Machine)
    ensures Apply(m, OnDownloadingRecordings(false)).state != m.state ==>
      m.state == DownloadingRecordings && Apply(m, OnDownloadingRecordings(false)).state == Ready
    ensures m.state == DownloadingRecordings ==> Apply(m, OnDownloadingRecordings(false)).state == Ready
  {
  }

  /** Over any sequence of calls, a flag once set stays set. */
  lemma {:induction false} FlagsStaySet(m: Machine, inputs: seq<Input>)
    ensures m.hasRecordingList ==> ApplyAll(m, inputs).hasRecordingList
    ensures m.hasDeviceInfo ==> ApplyAll(m, inputs).hasDeviceInfo
    ensures m.hasConnected ==> ApplyAll(m, inputs).hasConnected
    decreases |inputs|
  {
    if inputs != [] {
      FlagsStaySet(Apply(m, inputs[0]), inputs[1..]);
    }
  }

  /** Without a call to `connecting()`, no sequence of calls from a new
      machine reaches `Reconnect`. */
  lemma {:induction false} NoReconnectWithoutConnecting(m: Machine, inputs: seq<Input>)
    requires m.state != Reconnect
    requires forall k :: 0 <= k < |inputs| ==> inputs[k] != OnConnecting
    ensures ApplyAll(m, inputs).state != Reconnect
    decreases |inputs|
  {
    if inputs != [] {
      NoReconnectWithoutConnecting(Apply(m, inputs[0]), inputs[1..]);
    }
  }

  /** `StateMachine`: the same machine as an object whose methods update its
      fields. */
  class StateMachine {
    var state: DeviceState
    var hasRecordingList: bool
    var hasDeviceInfo: bool
    var hasConnected: bool

    function Current(): Machine
      reads this
    {
      Machine(state, hasRecordingList, hasDeviceInfo, hasConnected)
    }

    constructor ()
      ensures Current() == InitialMachine
    {
      state := Found;
      hasRecordingList := false;
      hasDeviceInfo := false;
      hasConnected := false;
    }

    /** `updateState`: takes the requested state when it differs from the
        current one and the table allows the move. */
    method UpdateState(newState: DeviceState)
      modifies this
      ensures Current() == old(Current()).(state := NextState(old(state), newState))
    {
      if state == newState {
        return;
      }
      var validSwitch := ValidSwitch(state, newState);
      if validSwitch {
        state := newState;
      }
    }

    method DownloadingRecordingsCall(downloading: bool)
      modifies this
      ensures Current() == Apply(old(Current()), OnDownloadingRecordings(downloading))
    {
      if downloading {
        UpdateState(DownloadingRecordings);
      } else if state == DownloadingRecordings {
        UpdateState(Ready);
      }
    }

    method ConnectedCall()
      modifies this
      ensures Current() == Apply(old(Current()), OnConnected)
    {
      hasConnected := true;
      if !state.IsConnected() {
        if hasDeviceInfo {
          UpdateState(Ready);
        } else {
          UpdateState(Connected);
        }
      }
    }

    method ConnectionToDeviceOnly()
      modifies this
      ensures Current() == Apply(old(Current()), OnConnectionToDeviceOnly)
    {
      hasConnected := true;
      UpdateState(ErrorConnectingToInterface);
    }

    method ConnectionFailed()
      modifies this
      ensures Current() == Apply(old(Current()), OnConnectionFailed)
    {
      UpdateState(ErrorConnectingToDevice);
    }

    method Connecting()
      modifies this
      ensures Current() == Apply(old(Current()), OnConnecting)
    {
      if hasConnected {
        UpdateState(Reconnect);
      }
    }

    method GotDeviceInfo()
      modifies this
      ensures Current() == Apply(old(Current()), OnGotDeviceInfo)
    {
      hasDeviceInfo := true;
      UpdateState(Ready);
    }

    method UpdatedRecordingList()
      modifies this
      ensures Current() == Apply(old(Current()), OnUpdatedRecordingList)
    {
      hasRecordingList := true;
    }
  }

  /** How many of the device's recordings are not among the downloaded names. */
  function NumMissing(recordings: seq<string>, downloaded: seq<string>): (n: nat)
    ensures n <= |recordings|
    decreases |recordings|
  {
    if recordings == [] then 0
    else
      NumMissing(recordings[..|recordings| - 1], downloaded) +
      (if recordings[|recordings| - 1] !in downloaded then 1 else 0)
  }

  /** Nothing is missing exactly when every recording has been downloaded. */
  lemma {:induction false} NoneMissingIff(recordings: seq<string>, downloaded: seq<string>)
    ensures NumMissing(recordings, downloaded) == 0 <==> forall i :: 0 <= i < |recordings| ==> recordings[i] in downloaded
    decreases |recordings|
  {
    if recordings != [] {
      var prefix := recordings[..|recordings| - 1];
      NoneMissingIff(prefix, downloaded);
      assert forall i :: 0 <= i < |prefix| ==> prefix[i] == recordings[i];
    }
  }

  /** Everything is missing exactly when no recording has been downloaded. */
  lemma {:induction false} AllMissingIff(recordings: seq<string>, downloaded: seq<string>)
    ensures NumMissing(recordings, downloaded) == |recordings| <==>
      forall i :: 0 <= i < |recordings| ==> recordings[i] !in downloaded
    decreases |recordings|
  {
    if recordings != [] {
      var prefix := recordings[..|recordings| - 1];
      AllMissingIff(prefix, downloaded);
      assert forall i :: 0 <= i < |prefix| ==> prefix[i] == recordings[i];
    }
  }

  /** The decimal digits of a natural number, most significant first. */
  function NatToString(n: nat): (s: string)
    ensures s != [] && forall i :: 0 <= i < |s| ==> '0' <= s[i] <= '9'
    decreases n
  {
    if n < 10 then [DigitChar(n)] else NatToString(n / 10) + [DigitChar(n % 10)]
  }

  function DigitChar(d: nat): (c: char)
    requires d < 10
    ensures '0' <= c <= '9'
  {
    ['0', '1', '2', '3', '4', '5', '6', '7', '8', '9'][d]
  }

  function DigitValue(c: char): nat
  {
    if '0' <= c <= '9' then (c as int - '0' as int) as nat else 0
  }

  /** The number a string of decimal digits denotes. */
  function ParseNat(s: string): nat
    decreases |s|
  {
    if s == [] then 0 else ParseNat(s[..|s| - 1]) * 10 + DigitValue(s[|s| - 1])
  }

  /** Reading back the digits gives the number. */
  lemma {:induction false} ParseNatToString(n: nat)
    ensures ParseNat(NatToString(n)) == n
    decreases n
  {
    var s := NatToString(n);
    if n >= 10 {
      ParseNatToString(n / 10);
      assert s[..|s| - 1] == NatToString(n / 10);
      assert DigitValue(DigitChar(n % 10)) == n % 10;
    } else {
      assert DigitValue(DigitChar(n)) == n;
    }
  }

  /** Kotlin's decimal rendering of an integer. */
  function IntToString(i: int): (s: string)
    ensures s != []
  {
    if i < 0 then "-" + NatToString(-i) else NatToString(i)
  }

  /** The status line: the first case that applies, in a fixed order. */
  function StatusFor(state: DeviceState, hasRecordingList: bool, total: nat, toDownload: int): (r: string)
    ensures !state.IsConnected() ==> r == state.Message()
    ensures r == [] ==> toDownload < 0
  {
    if !state.IsConnected() then state.Message()
    else if !hasRecordingList then "Checking for recordings"
    else if total == 0 then "No recordings left on device"
    else if state == DownloadingRecordings then
      "Downloaded " + IntToString(total - toDownload) + " of " + IntToString(total)
    else if toDownload == 0 then "All " + IntToString(total) + " recordings downloaded"
    else if toDownload == 1 then "1 recording to download"
    else if toDownload > 1 then IntToString(toDownload) + " recording to download"
    else ""
  }

  /** With a count in range, the status line is never empty, and while
      downloading it shows how many have been downloaded as a number between
      0 and the total. */
  lemma StatusWellFormed(state: DeviceState, hasRecordingList: bool, total: nat, toDownload: int)
    requires 0 <= toDownload <= total
    ensures StatusFor(state, hasRecordingList, total, toDownload) != []
    ensures state == DownloadingRecordings && hasRecordingList && total > 0 ==>
      StatusFor(state, hasRecordingList, total, toDownload) ==
        "Downloaded " + NatToString(total - toDownload) + " of " + NatToString(total)
  {
  }

  /** A disconnected device shows its state's message whatever else is known. */
  lemma DisconnectedShowsMessage(state: DeviceState, hasRecordingList: bool, total: nat, toDownload: int)
    requires !state.IsConnected()
    ensures StatusFor(state, hasRecordingList, total, toDownload) == state.Message()
  {
  }

  /** The part of `Device` that tracks recordings: its name, the names
      listed on the device, the count still to download, the status line, the state
      machine, and how many times the change callback has run. */
  class Device {
    var name: string
    var deviceRecordings: seq<string>
    var numRecToDownload: int
    var statusString: string
    var sm: StateMachine
    var changeNotifications: nat

    constructor (name: string)
      ensures this.name == name
      ensures deviceRecordings == [] && numRecToDownload == 0 && statusString == []
      ensures fresh(sm) && sm.Current() == InitialMachine && changeNotifications == 0
    {
      this.name := name;
      deviceRecordings := [];
      numRecToDownload := 0;
      statusString := [];
      sm := new StateMachine();
      changeNotifications := 0;
    }

    /** `updateNumberOfRecordingsToDownload`, given the names the database
        lists for this device: counts the device's recordings absent from
        them. */
    method UpdateNumberOfRecordingsToDownload(downloaded: seq<string>)
      modifies this
      ensures numRecToDownload == NumMissing(deviceRecordings, downloaded)
      ensures 0 <= numRecToDownload <= |deviceRecordings|
      ensures deviceRecordings == old(deviceRecordings) && statusString == old(statusString)
      ensures sm == old(sm) && changeNotifications == old(changeNotifications) && name == old(name)
    {
      var count := 0;
      var i := 0;
      while i < |deviceRecordings|
        invariant 0 <= i <= |deviceRecordings|
        invariant count == NumMissing(deviceRecordings[..i], downloaded)
        invariant deviceRecordings == old(deviceRecordings) && statusString == old(statusString)
        invariant sm == old(sm) && changeNotifications == old(changeNotifications) && name == old(name)
      {
        assert deviceRecordings[..i + 1][..i] == deviceRecordings[..i];
        if deviceRecordings[i] !in downloaded {
          count := count + 1;
        }
        i := i + 1;
      }
      assert deviceRecordings[..i] == deviceRecordings;
      numRecToDownload := count;
    }

    /** `updateStatusString`: recounts, derives the status line, and runs the
        change callback only when the line differs from the one shown. */
    method UpdateStatusString(downloaded: seq<string>)
      modifies this
      ensures numRecToDownload == NumMissing(deviceRecordings, downloaded)
      ensures statusString == StatusFor(sm.state, sm.hasRecordingList, |deviceRecordings|, numRecToDownload)
      ensures statusString != []
      ensures changeNotifications == old(changeNotifications) + (if statusString == old(statusString) then 0 else 1)
      ensures deviceRecordings == old(deviceRecordings) && sm == old(sm) && name == old(name)
    {
      UpdateNumberOfRecordingsToDownload(downloaded);
      var newStatus := StatusFor(sm.state, sm.hasRecordingList, |deviceRecordings|, numRecToDownload);
      StatusWellFormed(sm.state, sm.hasRecordingList, |deviceRecordings|, numRecToDownload);
      if newStatus != statusString {
        statusString := newStatus;
        changeNotifications := changeNotifications + 1;
      }
    }
  }
}
