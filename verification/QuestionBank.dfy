/** question_bank.py: a write-once table behind a pool that may be missing, every failure swallowed. */
module QuestionBank {
  import opened Wrappers
  import opened StudyTypes

  datatype Entry = Entry(content: Content, hits: nat)

  class Bank {
    var pool: bool
    var entries: map<Hash, Entry>
    ghost var served: multiset<Hash>

    /** Every answer given from an entry was counted as a hit on it. */
    ghost predicate Valid()
      reads this
    {
      forall hash :: served[hash] > 0 ==> hash in entries && served[hash] <= entries[hash].hits
    }

    /** The bank as the protocol sees it. */
    ghost function Contents(): map<Hash, Content>
      reads this
    {
      map hash | hash in entries :: entries[hash].content
    }

    constructor (pool: bool)
      ensures Valid() && Contents() == map[] && this.pool == pool
    {
      this.pool, entries, served := pool, map[], multiset{};
    }

    /** The content is returned only when both the SELECT and the hit-count UPDATE are seen to succeed. */
    method GetCached(hash: Option<Hash>, select: Fault, update: Fault) returns (cached: Option<Content>)
      requires Valid()
      modifies this`entries, this`served
      ensures Valid() && Contents() == old(Contents())
      ensures cached == if pool && select == Up && update == Up && hash.Some? && hash.value in old(Contents())
                        then Some(old(Contents())[hash.value]) else None
      ensures cached.Some? ==> entries[hash.value].hits == old(entries[hash.value].hits) + 1
    {
      if !pool || hash.None? || select != Up || hash.value !in entries {
        return None;
      }
      var row := entries[hash.value];
      if update != Lost {
        entries := entries[hash.value := row.(hits := row.hits + 1)];
      }
      if update != Up {
        return None;
      }
      served := served + multiset{hash.value};
      cached := Some(row.content);
    }

    /** INSERT ... ON CONFLICT (pdf_hash) DO NOTHING: no entry is ever replaced. */
    method SaveToBank(hash: Option<Hash>, content: Content, insert: Fault)
      requires Valid()
      modifies this`entries
      ensures Valid()
      ensures Contents() == if pool && hash.Some? && insert != Lost && hash.value !in old(Contents())
                            then old(Contents())[hash.value := content] else old(Contents())
      ensures forall h | h in old(entries) :: h in entries && entries[h] == old(entries)[h]
    {
      if !pool || hash.None? || insert == Lost {
        return;
      }
      if hash.value !in entries {
        entries := entries[hash.value := Entry(content, 0)];
      }
    }
  }
}
