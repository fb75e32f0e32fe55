/** A bounded FIFO over a caller-owned array. */
module FixedStorage {
  import opened Words

  /** The ring as a sequence: `Contents` is what an abstract bounded FIFO of this capacity holds. */
  class FixedRingQueue<T> {
    const storage: array<T>
    const present: bool
    const capacity: u16
    var head: u16
    var size: u16

    ghost predicate Valid()
      reads this
    {
      && (present ==> storage.Length == capacity)
      && size <= capacity
      && (if capacity == 0 then head == 0 else head < capacity)
      && (!ValidStorage() ==> size == 0)
    }

    /** The source stores a possibly null pointer; `present` says whether there is an array. */
    predicate ValidStorage() {
      capacity == 0 || present
    }

    /** The array index that is `offset` places after `start`, going round. */
    static function Slot(start: nat, offset: nat, capacity: nat): nat
      requires capacity > 0
    {
      (start + offset) % capacity
    }

    /** Head plus index stays below twice the capacity, so one subtraction is a whole reduction. */
    function PhysicalIndex(logicalIndex: u16): (physical: u16)
      requires Valid() && logicalIndex < capacity
      reads this
      ensures physical < capacity && physical == Slot(head, logicalIndex, capacity)
    {
      var sum: u32 := head + logicalIndex;
      OneSubtraction(sum, capacity);
      if sum >= capacity then sum - capacity else sum
    }

    function Increment(index: u16): (next: u16)
      requires index < capacity
      ensures next < capacity && next == (index + 1) % capacity
    {
      OneSubtraction(index + 1, capacity);
      if Wrap16(index + 1) == capacity then 0 else Wrap16(index + 1)
    }

    static lemma {:induction false} OneSubtraction(sum: nat, capacity: nat)
      requires sum < 2 * capacity
      ensures sum % capacity == if sum >= capacity then sum - capacity else sum
    {
      if sum >= capacity {
        assert sum == capacity * 1 + (sum - capacity);
        assert sum / capacity == 1;
      }
    }

    ghost function Contents(): (contents: seq<T>)
      requires Valid()
      reads this, storage
      ensures |contents| == size
    {
      if !present then [] else
        seq(size, i requires 0 <= i < size && Valid() && present reads this, storage => storage[PhysicalIndex(i)])
    }

    constructor (storage: array<T>, present: bool, capacity: u16)
      requires present ==> storage.Length == capacity
      ensures Valid() && Contents() == []
      ensures this.storage == storage && this.present == present && this.capacity == capacity
    {
      this.storage := storage;
      this.present := present;
      this.capacity := capacity;
      this.head := 0;
      this.size := 0;
    }

    predicate Empty()
      reads this
    {
      size == 0
    }

    predicate Full()
      reads this
    {
      size == capacity
    }

    method TryPush(value: T) returns (ok: bool)
      requires Valid()
      modifies this`size, storage
      ensures Valid()
      ensures ok <==> ValidStorage() && old(size) < capacity
      ensures Contents() == if ok then old(Contents()) + [value] else old(Contents())
    {
      if !ValidStorage() || Full() {
        return false;
      }
      PhysicalIndexInjective();
      storage[PhysicalIndex(size)] := value;
      size := size + 1;
      return true;
    }

    /** Different logical positions never share a slot, so a push overwrites nothing live. */
    lemma {:induction false} PhysicalIndexInjective()
      requires Valid()
      ensures forall i: u16, j: u16 | i < j < capacity :: PhysicalIndex(i) != PhysicalIndex(j)
    {
      forall i: u16, j: u16 | i < j < capacity
        ensures PhysicalIndex(i) != PhysicalIndex(j)
      {
        OneSubtraction(head + i, capacity);
        OneSubtraction(head + j, capacity);
      }
    }

    method PopFront() returns (ok: bool)
      requires Valid()
      modifies this
      ensures Valid()
      ensures ok <==> old(Contents()) != []
      ensures Contents() == if ok then old(Contents())[1..] else []
    {
      if Empty() || !ValidStorage() {
        return false;
      }
      ghost var before := Contents();
      assert forall i | 0 <= i < size :: before[i] == storage[PhysicalIndex(i)];
      AfterIncrement();
      head := Increment(head);
      size := size - 1;
      if size == 0 {
        head := 0;
      }
      return true;
    }

    /** Moving the head by one renumbers every later position by one. */
    lemma {:induction false} AfterIncrement()
      requires Valid() && capacity > 0
      ensures forall i: u16 | i < capacity - 1 :: Slot(Increment(head), i, capacity) == PhysicalIndex(i + 1)
    {
      forall i: u16 | i < capacity - 1
        ensures Slot(Increment(head), i, capacity) == PhysicalIndex(i + 1)
      {
        OneSubtraction(head + 1, capacity);
        OneSubtraction(head + (i + 1), capacity);
        OneSubtraction(Increment(head) + i, capacity);
      }
    }

    method TryPop() returns (value: Option<T>)
      requires Valid()
      modifies this
      ensures Valid()
      ensures old(Contents()) == [] ==> value == None && Contents() == []
      ensures old(Contents()) != [] ==> value == Some(old(Contents())[0]) && Contents() == old(Contents())[1..]
    {
      if Empty() || !ValidStorage() {
        return None;
      }
      assert Contents()[0] == storage[PhysicalIndex(0)];
      value := Some(storage[head]);
      var _ := PopFront();
    }

    /** The record at a logical position, if there is one; the source returns its address. */
    function At(logicalIndex: u16): (value: Option<T>)
      requires Valid()
      reads this, storage
      ensures value == if logicalIndex < |Contents()| then Some(Contents()[logicalIndex]) else None
    {
      if logicalIndex < size && ValidStorage() then Some(storage[PhysicalIndex(logicalIndex)]) else None
    }

    function Front(): (value: Option<T>)
      requires Valid()
      reads this, storage
      ensures value == if Contents() == [] then None else Some(Contents()[0])
    {
      if Empty() || !ValidStorage() then None else
        assert Contents()[0] == storage[PhysicalIndex(0)];
        Some(storage[head])
    }

    /** An assignment through the address that `Front` hands out. */
    method SetFront(value: T)
      requires Valid() && Contents() != []
      modifies storage
      ensures Valid() && Contents() == old(Contents())[0 := value]
    {
      PhysicalIndexInjective();
      assert PhysicalIndex(0) == head;
      storage[head] := value;
    }

    method Clear()
      requires Valid()
      modifies this
      ensures Valid() && Contents() == []
    {
      head := 0;
      size := 0;
    }
  }
}
