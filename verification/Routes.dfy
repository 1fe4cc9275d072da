/** The two kinds of routes, updated in place. */
module Routes {
  import opened KeyExprs
  import opened QosAdaptation
  import opened Bridge
  import opened Linking
  import opened DdsLibrary

  /** A route from DDS: it owns a DDS reader as long as it exists. */
  class RouteDDSZenoh {
    const ddsReader: int
    var remoteRoutedReaders: set<string>
    var localRoutedWriters: set<string>

    function View(): Route
      reads this
    {
      Route(ddsReader, remoteRoutedReaders, localRoutedWriters)
    }

    constructor (reader: int)
      ensures View() == Route(reader, {}, {})
    {
      ddsReader, remoteRoutedReaders, localRoutedWriters := reader, {}, {};
    }

    method Drop(readers: DdsEntities)
      requires readers.Valid()
      modifies readers
      ensures readers.Valid() && readers.live == old(readers.live) - {ddsReader} && readers.issued == old(readers.issued)
    {
      readers.Delete(ddsReader);
    }

    method AddRemoteRoutedReader(ref: string)
      modifies this
      ensures View() == old(View()).(remote := old(View()).remote + {ref})
    {
      remoteRoutedReaders := remoteRoutedReaders + {ref};
    }

    method RemoveRemoteRoutedReader(ref: string)
      modifies this
      ensures View() == CutRemote(ref).Apply(old(View()))
    {
      remoteRoutedReaders := remoteRoutedReaders - {ref};
    }

    method RemoveRemoteRoutedReadersContaining(sub: string)
      modifies this
      ensures View() == CutContaining(sub).Apply(old(View()))
    {
      remoteRoutedReaders := set x | x in remoteRoutedReaders && !Contains(x, sub);
    }

    predicate HasRemoteRoutedReader()
      reads this
    {
      remoteRoutedReaders != {}
    }

    predicate IsRoutingRemoteReader(gid: string)
      reads this
    {
      exists ref :: ref in remoteRoutedReaders && Contains(ref, gid)
    }

    method AddLocalRoutedWriter(key: string)
      modifies this
      ensures View() == old(View()).(local := old(View()).local + {key})
    {
      localRoutedWriters := localRoutedWriters + {key};
    }

    method RemoveLocalRoutedWriter(key: string)
      modifies this
      ensures View() == CutLocal(key).Apply(old(View()))
    {
      localRoutedWriters := localRoutedWriters - {key};
    }

    predicate HasLocalRoutedWriter()
      reads this
    {
      localRoutedWriters != {}
    }
  }

  /** A route to DDS: its DDS writer may come and go; 0 stands for none. */
  class RouteZenohDDS {
    var ddsWriter: int
    var remoteRoutedWriters: set<string>
    var localRoutedReaders: set<string>

    function View(): Route
      reads this
    {
      Route(ddsWriter, remoteRoutedWriters, localRoutedReaders)
    }

    constructor ()
      ensures View() == Route(0, {}, {})
    {
      ddsWriter, remoteRoutedWriters, localRoutedReaders := 0, {}, {};
    }

    method Drop(writers: DdsEntities)
      requires writers.Valid()
      modifies this, writers
      ensures writers.Valid() && writers.live == old(writers.live) - {old(ddsWriter)} && writers.issued == old(writers.issued)
      ensures View() == old(View()).(entity := 0)
    {
      DeleteDdsWriter(writers);
    }

    /** One call at a time; racing calls are the subject of the module WriterSlot. */
    method SetDdsWriter(writers: DdsEntities, o: Outcome, spec: Spec) returns (ok: bool)
      requires writers.Valid()
      modifies this, writers
      ensures writers.Valid()
      ensures if old(ddsWriter) == 0 && old(writers.WouldAccept(o)) then
                var (handle, guid) := o.entity.value;
                && ok && View() == old(View()).(entity := handle)
                && writers.live == old(writers.live)[handle := guid] && writers.issued == old(writers.issued)[guid := spec]
              else
                && ok == (old(ddsWriter) != 0) && View() == old(View())
                && writers.live == old(writers.live) && writers.issued == old(writers.issued)
    {
      if ddsWriter == 0 {
        var created := writers.Create(o, spec);
        if created.None? {
          return false;
        }
        ddsWriter := created.value;
      }
      return true;
    }

    method DeleteDdsWriter(writers: DdsEntities)
      requires writers.Valid()
      modifies this, writers
      ensures writers.Valid() && writers.live == old(writers.live) - {old(ddsWriter)} && writers.issued == old(writers.issued)
      ensures View() == old(View()).(entity := 0)
    {
      var entity := ddsWriter;
      ddsWriter := 0;
      if entity != 0 {
        writers.Delete(entity);
      }
    }

    method AddRemoteRoutedWriter(ref: string)
      modifies this
      ensures View() == old(View()).(remote := old(View()).remote + {ref})
    {
      remoteRoutedWriters := remoteRoutedWriters + {ref};
    }

    method RemoveRemoteRoutedWriter(ref: string)
      modifies this
      ensures View() == CutRemote(ref).Apply(old(View()))
    {
      remoteRoutedWriters := remoteRoutedWriters - {ref};
    }

    method RemoveRemoteRoutedWritersContaining(sub: string)
      modifies this
      ensures View() == CutContaining(sub).Apply(old(View()))
    {
      remoteRoutedWriters := set x | x in remoteRoutedWriters && !Contains(x, sub);
    }

    predicate HasRemoteRoutedWriter()
      reads this
    {
      remoteRoutedWriters != {}
    }

    predicate IsRoutingRemoteWriter(gid: string)
      reads this
    {
      exists ref :: ref in remoteRoutedWriters && Contains(ref, gid)
    }

    method AddLocalRoutedReader(key: string)
      modifies this
      ensures View() == old(View()).(local := old(View()).local + {key})
    {
      localRoutedReaders := localRoutedReaders + {key};
    }

    method RemoveLocalRoutedReader(key: string)
      modifies this
      ensures View() == CutLocal(key).Apply(old(View()))
    {
      localRoutedReaders := localRoutedReaders - {key};
    }

    predicate HasLocalRoutedReader()
      reads this
    {
      localRoutedReaders != {}
    }
  }
}
