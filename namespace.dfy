/** Interning tables: two-way maps between textual names and dense ids
    (src/core/namespace.cpp). */
module Namespaces {
  import opened Types

  /** One interning scheme: `toId` and `toName` are mutual inverses and the
      ids handed out are exactly 0 .. next-1 (so `next` counts the names, as
      `TablesCount` shows). */
  ghost predicate TablesValid(toId: map<string, nat>, toName: map<nat, string>, next: nat) {
    && (forall p :: p in toId ==> toId[p] < next && toId[p] in toName && toName[toId[p]] == p)
    && (forall i: nat :: i in toName <==> i < next)
    && (forall i :: i in toName ==> toName[i] in toId && toId[toName[i]] == i)
  }

  /** Two different names never share an id. */
  lemma TablesInjective(toId: map<string, nat>, toName: map<nat, string>, next: nat, p: string, q: string)
    requires TablesValid(toId, toName, next)
    requires p in toId && q in toId && p != q
    ensures toId[p] != toId[q]
  {
    assert toName[toId[p]] == p && toName[toId[q]] == q;
  }

  /** The counter is the number of names interned. */
  lemma {:induction false} TablesCount(toId: map<string, nat>, toName: map<nat, string>, next: nat)
    requires TablesValid(toId, toName, next)
    ensures |toId| == next
    decreases next
  {
    if next == 0 {
      assert toId.Keys == {};
    } else {
      var last := next - 1;
      assert last in toName;
      var p := toName[last];
      var toId', toName' := toId - {p}, toName - {last};
      forall q | q in toId' ensures toId'[q] < last && toId'[q] in toName' && toName'[toId'[q]] == q {
        assert toName[toId[q]] == q;
      }
      forall i | i in toName' ensures toName'[i] in toId' && toId'[toName'[i]] == i {
        assert toId[p] == last;
      }
      TablesCount(toId', toName', last);
      assert toId.Keys == toId'.Keys + {p};
    }
  }

  /** Adding a fresh name under the next id keeps the tables valid. */
  lemma TablesExtend(toId: map<string, nat>, toName: map<nat, string>, next: nat, p: string)
    requires TablesValid(toId, toName, next)
    requires p !in toId
    ensures TablesValid(toId[p := next], toName[next := p], next + 1)
  {
    var toId', toName' := toId[p := next], toName[next := p];
    forall q | q in toId' ensures toId'[q] < next + 1 && toId'[q] in toName' && toName'[toId'[q]] == q {
      if q != p {
        assert toId[q] < next;
      }
    }
    forall i | i in toName' ensures toName'[i] in toId' && toId'[toName'[i]] == i {
      if i != next {
        assert toName[i] in toId && toId[toName[i]] == i;
        assert toName[i] != p;
      }
    }
  }

  /** Every name of `a` keeps its id in `b`: interning only adds names. */
  ghost predicate Grows(a: map<string, nat>, b: map<string, nat>) {
    forall p :: p in a ==> p in b && b[p] == a[p]
  }

  lemma GrowsTransitive(a: map<string, nat>, b: map<string, nat>, c: map<string, nat>)
    requires Grows(a, b) && Grows(b, c)
    ensures Grows(a, c)
  {
  }

  /** Maps signal paths to SignalIds. */
  class SignalNamespace {
    var pathToId: map<string, SignalId>
    var idToPath: map<SignalId, string>
    var nextId: SignalId

    ghost predicate Valid()
      reads this
    {
      TablesValid(pathToId, idToPath, nextId)
    }

    constructor ()
      ensures Valid() && pathToId == map[] && idToPath == map[] && nextId == 0
    {
      pathToId, idToPath, nextId := map[], map[], 0;
    }

    /** The id of a path already interned, or a fresh id (the current counter,
        which is then advanced) for a new path. */
    method Intern(path: string) returns (id: SignalId)
      requires Valid()
      modifies this
      ensures Valid()
      ensures path in old(pathToId) ==>
        id == old(pathToId)[path] && pathToId == old(pathToId) && idToPath == old(idToPath) && nextId == old(nextId)
      ensures path !in old(pathToId) ==>
        && id == old(nextId) && nextId == old(nextId) + 1
        && pathToId == old(pathToId)[path := id] && idToPath == old(idToPath)[id := path]
      ensures Resolve(path) == id && Lookup(id) == path
      ensures forall q :: q in old(pathToId) && q != path ==> old(pathToId)[q] != id
      ensures old(Size()) < INVALID_SIGNAL ==> id != INVALID_SIGNAL
      ensures Grows(old(pathToId), pathToId) && path in pathToId && pathToId[path] == id
    {
      if path in pathToId {
        id := pathToId[path];
        return;
      }
      TablesExtend(pathToId, idToPath, nextId, path);
      id := nextId;
      nextId := nextId + 1;
      pathToId := pathToId[path := id];
      idToPath := idToPath[id := path];
    }

    /** The interned id of `path`, or INVALID_SIGNAL for an unknown path. */
    function Resolve(path: string): (id: SignalId)
      reads this
      requires Valid()
      ensures path in pathToId ==> id < nextId && idToPath[id] == path
      ensures path !in pathToId ==> id == INVALID_SIGNAL
    {
      if path in pathToId then pathToId[path] else INVALID_SIGNAL
    }

    /** The path interned under `id`, or "" for an id never handed out. */
    function Lookup(id: SignalId): (path: string)
      reads this
      requires Valid()
      ensures id < nextId ==> path in pathToId && pathToId[path] == id
      ensures id >= nextId ==> path == ""
    {
      if id in idToPath then idToPath[id] else ""
    }

    /** The number of distinct interned paths, which is also the next id. */
    function Size(): (n: nat)
      reads this
      requires Valid()
      ensures n == nextId
    {
      TablesCount(pathToId, idToPath, nextId);
      |pathToId|
    }

    /** Empties both tables and restarts the counter. */
    method Clear()
      requires Valid()
      modifies this
      ensures Valid() && pathToId == map[] && idToPath == map[] && nextId == 0
      ensures forall p :: Resolve(p) == INVALID_SIGNAL
    {
      pathToId, idToPath, nextId := map[], map[], 0;
    }
  }

  /** Maps device names and function names to ids, in two independent tables. */
  class FunctionNamespace {
    var deviceMap: map<string, DeviceId>
    var deviceReverse: map<DeviceId, string>
    var functionMap: map<string, FunctionId>
    var functionReverse: map<FunctionId, string>
    var nextDeviceId: DeviceId
    var nextFunctionId: FunctionId

    ghost predicate Valid()
      reads this
    {
      TablesValid(deviceMap, deviceReverse, nextDeviceId)
      && TablesValid(functionMap, functionReverse, nextFunctionId)
    }

    constructor ()
      ensures Valid()
      ensures deviceMap == map[] && deviceReverse == map[] && nextDeviceId == 0
      ensures functionMap == map[] && functionReverse == map[] && nextFunctionId == 0
    {
      deviceMap, deviceReverse, nextDeviceId := map[], map[], 0;
      functionMap, functionReverse, nextFunctionId := map[], map[], 0;
    }

    method InternDevice(name: string) returns (id: DeviceId)
      requires Valid()
      modifies this
      ensures Valid()
      ensures functionMap == old(functionMap) && functionReverse == old(functionReverse)
      ensures nextFunctionId == old(nextFunctionId)
      ensures name in old(deviceMap) ==>
        id == old(deviceMap)[name] && deviceMap == old(deviceMap) && deviceReverse == old(deviceReverse)
        && nextDeviceId == old(nextDeviceId)
      ensures name !in old(deviceMap) ==>
        && id == old(nextDeviceId) && nextDeviceId == old(nextDeviceId) + 1
        && deviceMap == old(deviceMap)[name := id] && deviceReverse == old(deviceReverse)[id := name]
      ensures ResolveDevice(name) == id && LookupDevice(id) == name
      ensures old(|deviceMap|) < INVALID_DEVICE ==> id != INVALID_DEVICE
      ensures Grows(old(deviceMap), deviceMap) && name in deviceMap && deviceMap[name] == id
    {
      TablesCount(deviceMap, deviceReverse, nextDeviceId);
      if name in deviceMap {
        id := deviceMap[name];
        return;
      }
      TablesExtend(deviceMap, deviceReverse, nextDeviceId, name);
      id := nextDeviceId;
      nextDeviceId := nextDeviceId + 1;
      deviceMap := deviceMap[name := id];
      deviceReverse := deviceReverse[id := name];
    }

    method InternFunction(name: string) returns (id: FunctionId)
      requires Valid()
      modifies this
      ensures Valid()
      ensures deviceMap == old(deviceMap) && deviceReverse == old(deviceReverse)
      ensures nextDeviceId == old(nextDeviceId)
      ensures name in old(functionMap) ==>
        id == old(functionMap)[name] && functionMap == old(functionMap)
        && functionReverse == old(functionReverse) && nextFunctionId == old(nextFunctionId)
      ensures name !in old(functionMap) ==>
        && id == old(nextFunctionId) && nextFunctionId == old(nextFunctionId) + 1
        && functionMap == old(functionMap)[name := id] && functionReverse == old(functionReverse)[id := name]
      ensures ResolveFunction(name) == id && LookupFunction(id) == name
      ensures old(|functionMap|) < INVALID_FUNCTION ==> id != INVALID_FUNCTION
      ensures Grows(old(functionMap), functionMap) && name in functionMap && functionMap[name] == id
    {
      TablesCount(functionMap, functionReverse, nextFunctionId);
      if name in functionMap {
        id := functionMap[name];
        return;
      }
      TablesExtend(functionMap, functionReverse, nextFunctionId, name);
      id := nextFunctionId;
      nextFunctionId := nextFunctionId + 1;
      functionMap := functionMap[name := id];
      functionReverse := functionReverse[id := name];
    }

    function LookupDevice(id: DeviceId): (name: string)
      reads this
      requires Valid()
      ensures id < nextDeviceId ==> name in deviceMap && deviceMap[name] == id
      ensures id >= nextDeviceId ==> name == ""
    {
      if id in deviceReverse then deviceReverse[id] else ""
    }

    function LookupFunction(id: FunctionId): (name: string)
      reads this
      requires Valid()
      ensures id < nextFunctionId ==> name in functionMap && functionMap[name] == id
      ensures id >= nextFunctionId ==> name == ""
    {
      if id in functionReverse then functionReverse[id] else ""
    }

    function ResolveDevice(name: string): (id: DeviceId)
      reads this
      requires Valid()
      ensures name in deviceMap ==> id < nextDeviceId && deviceReverse[id] == name
      ensures name !in deviceMap ==> id == INVALID_DEVICE
    {
      if name in deviceMap then deviceMap[name] else INVALID_DEVICE
    }

    function ResolveFunction(name: string): (id: FunctionId)
      reads this
      requires Valid()
      ensures name in functionMap ==> id < nextFunctionId && functionReverse[id] == name
      ensures name !in functionMap ==> id == INVALID_FUNCTION
    {
      if name in functionMap then functionMap[name] else INVALID_FUNCTION
    }

    method Clear()
      requires Valid()
      modifies this
      ensures Valid()
      ensures deviceMap == map[] && deviceReverse == map[] && nextDeviceId == 0
      ensures functionMap == map[] && functionReverse == map[] && nextFunctionId == 0
      ensures forall n :: ResolveDevice(n) == INVALID_DEVICE && ResolveFunction(n) == INVALID_FUNCTION
    {
      deviceMap, deviceReverse, nextDeviceId := map[], map[], 0;
      functionMap, functionReverse, nextFunctionId := map[], map[], 0;
    }
  }
}
