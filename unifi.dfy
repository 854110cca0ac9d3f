/**
 * Presence detection from the UniFi controller (server/dashboard/unifi.py):
 * which configured people are at home, judged from when the controller last
 * saw each person's device. The controller query is an input; `now` is
 * `int(time.time())`, whole seconds.
 */
module Unifi {

  /** One client record from the controller: its MAC and last-seen timestamp. */
  datatype Client = Client(mac: string, lastSeen: int)

  const ONLINE_WINDOW := 60

  /** Client i is the last record in the list for its MAC. */
  predicate LastSightingAt(clients: seq<Client>, i: int)
    requires 0 <= i < |clients|
  {
    forall j | i < j < |clients| :: clients[j].mac != clients[i].mac
  }

  /** `{client['mac']: client['last_seen'] for client in clients}`: later records override earlier ones. */
  function LastSeenByMac(clients: seq<Client>): (online: map<string, int>)
    ensures online.Keys == set i | 0 <= i < |clients| :: clients[i].mac
  {
    if clients == [] then map[]
    else
      var n := |clients| - 1;
      var front := LastSeenByMac(clients[..n]);
      assert (set i | 0 <= i < |clients| :: clients[i].mac)
        == (set i | 0 <= i < n :: clients[..n][i].mac) + {clients[n].mac};
      front[clients[n].mac := clients[n].lastSeen]
  }

  /** A MAC's entry is the last-seen time of its last record. */
  lemma {:induction false} LastSightingUsed(clients: seq<Client>, i: nat)
    requires i < |clients| && LastSightingAt(clients, i)
    ensures LastSeenByMac(clients)[clients[i].mac] == clients[i].lastSeen
  {
    var n := |clients| - 1;
    if i < n {
      assert clients[..n][i] == clients[i];
      LastSightingUsed(clients[..n], i);
    }
  }

  /** Every MAC in the list has a last record. */
  lemma {:induction false} HasLastSighting(clients: seq<Client>, i: nat)
    requires i < |clients|
    ensures exists k | i <= k < |clients| :: clients[k].mac == clients[i].mac && LastSightingAt(clients, k)
    decreases |clients| - i
  {
    if !LastSightingAt(clients, i) {
      var j :| i < j < |clients| && clients[j].mac == clients[i].mac;
      HasLastSighting(clients, j);
    }
  }

  /**
   * `get_online_status` as written: a person is online when their MAC is among
   * the clients and its last-seen time minus now is under 60 seconds.
   */
  function OnlineStatus(clients: seq<Client>, macs: map<string, string>, now: int): (status: map<string, bool>)
    ensures status.Keys == macs.Keys
    ensures forall name | name in macs && (forall i | 0 <= i < |clients| :: clients[i].mac != macs[name]) ::
      !status[name]
    ensures forall name1, name2 | name1 in macs && name2 in macs && macs[name1] == macs[name2] ::
      status[name1] == status[name2]
  {
    var online := LastSeenByMac(clients);
    map name | name in macs :: macs[name] in online && online[macs[name]] - now < ONLINE_WINDOW
  }

  /**
   * A configured person is online exactly when the last record of their MAC
   * has a last-seen time less than 60 seconds after now.
   */
  lemma OnlineStatusByLastSighting(clients: seq<Client>, macs: map<string, string>, now: int, name: string)
    requires name in macs
    ensures OnlineStatus(clients, macs, now)[name] <==>
      exists i | 0 <= i < |clients| ::
        clients[i].mac == macs[name] && LastSightingAt(clients, i) && clients[i].lastSeen - now < ONLINE_WINDOW
  {
    var status := OnlineStatus(clients, macs, now);
    if status[name] {
      var k :| 0 <= k < |clients| && clients[k].mac == macs[name];
      HasLastSighting(clients, k);
      var i :| k <= i < |clients| && clients[i].mac == clients[k].mac && LastSightingAt(clients, i);
      LastSightingUsed(clients, i);
    }
    if exists i | 0 <= i < |clients| ::
        clients[i].mac == macs[name] && LastSightingAt(clients, i) && clients[i].lastSeen - now < ONLINE_WINDOW {
      var i :| 0 <= i < |clients| &&
        clients[i].mac == macs[name] && LastSightingAt(clients, i) && clients[i].lastSeen - now < ONLINE_WINDOW;
      LastSightingUsed(clients, i);
    }
  }

  /**
   * With the subtraction as written, a device last seen any time in the past,
   * an hour ago say, counts as online.
   */
  lemma OnlineStatusAnyPastSighting()
    ensures OnlineStatus([Client("aa:bb:cc:dd:ee:ff", 1000)], map["Alice" := "aa:bb:cc:dd:ee:ff"], 4600)["Alice"]
  {
  }

  /** Under the comparison as written, the age of the sighting never matters. */
  lemma OnlineStatusIgnoresAge(clients: seq<Client>, macs: map<string, string>, now: int, name: string)
    requires name in macs
    requires forall i | 0 <= i < |clients| :: clients[i].lastSeen <= now
    ensures OnlineStatus(clients, macs, now)[name] <==> exists i | 0 <= i < |clients| :: clients[i].mac == macs[name]
  {
    if exists i | 0 <= i < |clients| :: clients[i].mac == macs[name] {
      var k :| 0 <= k < |clients| && clients[k].mac == macs[name];
      HasLastSighting(clients, k);
      var i :| k <= i < |clients| && clients[i].mac == clients[k].mac && LastSightingAt(clients, i);
      LastSightingUsed(clients, i);
    }
  }

  /** The status with the age measured as now minus the last-seen time. */
  function RecentOnlineStatus(clients: seq<Client>, macs: map<string, string>, now: int): (status: map<string, bool>)
    ensures status.Keys == macs.Keys
  {
    var online := LastSeenByMac(clients);
    map name | name in macs :: macs[name] in online && now - online[macs[name]] < ONLINE_WINDOW
  }

  /**
   * A configured person is online exactly when the last record of their MAC
   * was seen less than 60 seconds before now; a sighting an hour old does not count.
   */
  lemma RecentOnlineStatusByAge(clients: seq<Client>, macs: map<string, string>, now: int, name: string)
    requires name in macs
    ensures RecentOnlineStatus(clients, macs, now)[name] <==>
      exists i | 0 <= i < |clients| ::
        clients[i].mac == macs[name] && LastSightingAt(clients, i) && now - clients[i].lastSeen < ONLINE_WINDOW
    ensures !RecentOnlineStatus([Client("aa:bb:cc:dd:ee:ff", 1000)], map["Alice" := "aa:bb:cc:dd:ee:ff"], 4600)["Alice"]
  {
    var status := RecentOnlineStatus(clients, macs, now);
    if status[name] {
      var k :| 0 <= k < |clients| && clients[k].mac == macs[name];
      HasLastSighting(clients, k);
      var i :| k <= i < |clients| && clients[i].mac == clients[k].mac && LastSightingAt(clients, i);
      LastSightingUsed(clients, i);
    }
    if exists i | 0 <= i < |clients| ::
        clients[i].mac == macs[name] && LastSightingAt(clients, i) && now - clients[i].lastSeen < ONLINE_WINDOW {
      var i :| 0 <= i < |clients| &&
        clients[i].mac == macs[name] && LastSightingAt(clients, i) && now - clients[i].lastSeen < ONLINE_WINDOW;
      LastSightingUsed(clients, i);
    }
  }
}
