/** The carrier as an object: the event handlers of its connections, against the steps of the model. */
module LanCarriers {

  import opened Wrappers
  import opened DeviceRecords
  import opened Connections

  class ConnectionEpochAllocator {
    var currentEpoch: int

    constructor ()
      ensures currentEpoch == 0
    {
      currentEpoch := 0;
    }

    /** The next epoch, unless the space of safe integers is used up. */
    method AllocateNext() returns (r: Option<int>)
      modifies this
      ensures if old(currentEpoch) >= MAX_SAFE_INTEGER then r == None && currentEpoch == old(currentEpoch)
              else r == Some(currentEpoch) && currentEpoch == old(currentEpoch) + 1
    {
      if currentEpoch >= MAX_SAFE_INTEGER { return None; }
      currentEpoch := currentEpoch + 1;
      return Some(currentEpoch);
    }
  }

  class HostLanCarrier {
    const bounds: Bounds
    const trustDomainId: string
    const epochs: ConnectionEpochAllocator
    var connections: map<ConnId, Conn>
    var activeConnections: seq<ConnId>
    var deviceConnections: map<string, seq<ConnId>>
    var devices: Devices
    var subscribed: bool
    var released: seq<Peer>

    function View(): Host
      reads this, epochs
    {
      Host(connections, activeConnections, deviceConnections, epochs.currentEpoch, devices, trustDomainId, subscribed, released)
    }

    constructor (bounds: Bounds, trustDomainId: string, devices: Devices)
      ensures this.bounds == bounds && fresh(epochs)
      ensures View() == Host(map[], [], map[], 0, devices, trustDomainId, false, [])
    {
      this.bounds, this.trustDomainId, this.devices := bounds, trustDomainId, devices;
      connections, activeConnections, deviceConnections := map[], [], map[];
      subscribed, released := false, [];
      epochs := new ConnectionEpochAllocator();
    }

    method RemoveConnection(id: ConnId, peer: Option<Peer>)
      modifies this`activeConnections, this`deviceConnections
      ensures View() == Connections.RemoveConnection(old(View()), id, peer)
    {
      hide Without;
      activeConnections := Without(activeConnections, id);
      if peer.Some? && peer.value.deviceId in deviceConnections {
        var d := peer.value.deviceId;
        var rest := Without(deviceConnections[d], id);
        deviceConnections := deviceConnections[d := rest];
        if rest == [] {
          assert deviceConnections - {d} == old(deviceConnections) - {d};
          deviceConnections := deviceConnections - {d};
        }
      }
    }

    /** The first close of a connection releases its peer and forgets it; later ones do nothing. */
    method Cleanup(id: ConnId)
      modifies this`connections, this`activeConnections, this`deviceConnections, this`released
      ensures View() == Connections.Cleanup(old(View()), id)
    {
      hide Without;
      if id !in connections || connections[id].state == Closed { return; }
      var c := connections[id];
      connections := connections[id := c.(state := Closed)];
      if c.peer.Some? {
        released := released + [c.peer.value];
      }
      RemoveConnection(id, c.peer);
    }

    method CloseAll(ids: seq<ConnId>)
      modifies this`connections, this`activeConnections, this`deviceConnections, this`released
      ensures View() == CleanupAll(old(View()), ids)
    {
      hide Connections.Cleanup;
      var i := 0;
      assert ids[0..] == ids;
      while i < |ids|
        invariant i <= |ids| && CleanupAll(View(), ids[i..]) == CleanupAll(old(View()), ids)
      {
        assert ids[i..][1..] == ids[i + 1..];
        Cleanup(ids[i]);
        i := i + 1;
      }
    }

    /** The listener of revocations: a copy of the set is closed, then the entry is dropped. */
    method OnRevocation(deviceId: string)
      modifies this`connections, this`activeConnections, this`deviceConnections, this`released
      ensures View() == HandleRevocation(old(View()), deviceId)
    {
      hide CleanupAll;
      if deviceId in deviceConnections {
        CloseAll(deviceConnections[deviceId]);
        deviceConnections := deviceConnections - {deviceId};
      }
    }

    method OnPeerAuthenticated(id: ConnId, deviceId: string)
      modifies this`deviceConnections
      ensures View() == Index(old(View()), id, deviceId)
    {
      var others := if deviceId in deviceConnections then deviceConnections[deviceId] else [];
      deviceConnections := deviceConnections[deviceId := if id in others then others else others + [id]];
    }

    method EvaluateAuthorization(id: ConnId, deviceId: string, hello: Handshake)
      requires id in connections
      modifies this`connections, this`activeConnections, this`deviceConnections, this`released, this`devices
      ensures View() == Connections.EvaluateAuthorization(old(View()), id, deviceId, hello)
    {
      hide Connections.Cleanup;
      if hello.storeDown {
        Cleanup(id);
        return;
      }
      var record := Find(devices, deviceId);
      if record.None? {
        connections := connections[id := connections[id].(state := PairingPending)];
        return;
      }
      if record.value.revokedAt.Some? {
        Cleanup(id);
        return;
      }
      if record.value.trustDomainId != trustDomainId {
        connections := connections[id := connections[id].(state := PairingPending)];
        return;
      }
      if hello.seenFails {
        Cleanup(id);
        return;
      }
      devices := SetDevice(devices, record.value.(lastSeenAt := hello.now));
      connections := connections[id := connections[id].(state := Active)];
    }

    /** One Noise message: authenticate, index, authorize, all in one tick. */
    method HandleHandshakeMessage(id: ConnId, hello: Handshake)
      requires id in connections && connections[id].state != Closed
      modifies this`connections, this`activeConnections, this`deviceConnections, this`released, this`devices, epochs
      ensures View() == HandleHandshake(old(View()), id, hello)
    {
      hide Connections.Cleanup;
      hide Connections.EvaluateAuthorization;
      if hello.tooLong || hello.remote.None? {
        Cleanup(id);
        return;
      }
      var epoch := epochs.AllocateNext();
      if epoch.None? {
        Cleanup(id);
        return;
      }
      var deviceId := hello.remote.value;
      connections := connections[id := connections[id].(state := ChannelAuthenticated, peer := Some(Peer(deviceId, epoch.value)))];
      OnPeerAuthenticated(id, deviceId);
      assert View() == Authenticate(old(View()), id, deviceId);
      EvaluateAuthorization(id, deviceId, hello);
      if hello.sendFails {
        Cleanup(id);
      }
    }

    method HandleFrame(id: ConnId, input: Input)
      requires id in connections
      modifies this`connections, this`activeConnections, this`deviceConnections, this`released, this`devices, epochs
      ensures View() == Connections.HandleFrame(bounds, old(View()), id, input)
    {
      hide Connections.Cleanup;
      hide HandleHandshake;
      if connections[id].state == Closed { return; }
      match input
      case CloseFrame => Cleanup(id);
      case PingFrame(slow) => if slow { Cleanup(id); }
      case PongFrame =>
      case OtherFrame => Cleanup(id);
      case BinaryFrame(hello) =>
        if connections[id].state in {Connected, NoiseHandshake} {
          HandleHandshakeMessage(id, hello);
        } else if connections[id].pendingInbound >= bounds.maxInboundQueue {
          Cleanup(id);
        } else {
          connections := connections[id := connections[id].(pendingInbound := connections[id].pendingInbound + 1)];
        }
    }

    /** A connection works through the bytes that came with its upgrade; only then is it listed. */
    method HandleUpgrade(id: ConnId, head: seq<Input>)
      requires id !in connections
      modifies this`connections, this`activeConnections, this`deviceConnections, this`released, this`devices, epochs
      ensures View() == Upgrade(bounds, old(View()), id, head)
    {
      hide Connections.HandleFrame;
      hide Without;
      if |activeConnections| >= bounds.maxConnections { return; }
      connections := connections[id := Conn(Connected, None, 0)];
      ghost var start := View();
      var i := 0;
      while i < |head|
        invariant i <= |head| && id in connections
        invariant View() == HandleFrames(bounds, start, id, head[..i])
      {
        assert head[..i + 1][..i] == head[..i];
        HandleFrame(id, head[i]);
        i := i + 1;
      }
      assert head[..i] == head;
      activeConnections := Without(activeConnections, id) + [id];
    }

    /** The first half of a stop ends where the mDNS advertiser is awaited. */
    method StopBegin()
      modifies this`subscribed
      ensures View() == old(View()).(subscribed := false)
    {
      subscribed := false;
    }

    method StopEnd()
      modifies this`connections, this`activeConnections, this`deviceConnections, this`released
      ensures View() == CleanupAll(old(View()), old(activeConnections)).(active := [], byDevice := map[])
    {
      hide CleanupAll;
      CloseAll(activeConnections);
      activeConnections, deviceConnections := [], map[];
    }
  }
}
