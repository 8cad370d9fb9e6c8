/** Archives, and the one Serialize each record has for both directions. */
module Archives {
  import opened Engine
  import opened Actors
  import opened Codec
  import opened Saver

  /** Reading gave `out`, and left `rest`, or failed. */
  ghost predicate Outcome<T>(read: Read<T>, out: T, error: bool, rest: seq<Word>) {
    match read
    case Fail => error
    case Got(value, left) => !error && out == value && rest == left
  }

  lemma InTwoSteps(a: seq<Word>, b: seq<Word>, c: seq<Word>)
    ensures (a + b) + c == a + (b + c)
  {
  }

  /** Words holding the same kind of value. */
  predicate IsOfKind(a: Word, b: Word) {
    && a.ByteWord? == b.ByteWord? && a.BoolWord? == b.BoolWord? && a.CountWord? == b.CountWord?
    && a.NameWord? == b.NameWord? && a.ClassWord? == b.ClassWord? && a.TransformWord? == b.TransformWord?
    && a.VectorWord? == b.VectorWord? && a.FilterWord? == b.FilterWord? && a.NumberWord? == b.NumberWord?
    && a.RealWord? == b.RealWord? && a.TextWord? == b.TextWord?
  }

  /** FArchive: written at its end, or read from its position on. */
  class Archive {
    const loading: bool
    const resolve: Resolver
    var words: seq<Word>
    var position: nat
    var error: bool

    constructor (loading: bool, words: seq<Word>, resolve: Resolver)
      ensures this.loading == loading && this.resolve == resolve && this.words == words && position == 0 && !error
    {
      this.loading, this.resolve, this.words, position, error := loading, resolve, words, 0, false;
    }

    ghost predicate Good()
      reads this
    {
      !error && position <= |words|
    }

    ghost function Rest(): seq<Word>
      requires position <= |words|
      reads this
    {
      words[position..]
    }

    /** The words have been appended, and nothing else has changed. */
    ghost predicate Wrote(was: seq<Word>, place: nat, more: seq<Word>)
      reads this
    {
      !loading && !error && words == was + more && position == place
    }

    /** Any value kept in a single word: written, or read if the next word is of its kind. */
    method SerializeWord(value: Word) returns (out: Word)
      requires Good()
      modifies this
      ensures Wrote(old(words), old(position), [value]) || loading
      ensures !loading ==> out == value && !error
      ensures loading ==> words == old(words) && position <= |words| && IsOfKind(out, value)
      ensures loading ==>
                var ws := old(Rest());
                if ws != [] && IsOfKind(ws[0], value) then !error && out == ws[0] && Rest() == ws[1..] else error
    {
      out := value;
      if !loading {
        words := words + [value];
      } else if position < |words| && IsOfKind(words[position], value) {
        out := words[position];
        position := position + 1;
      } else {
        error := true;
      }
    }

    /** Moves back to the beginning. */
    method Rewind()
      requires Good()
      modifies this`position
      ensures position == 0 && Good()
    {
      position := 0;
    }

    /** A class goes by its path; a path that resolves to nothing reads as no class. */
    method SerializeClass(cls: Option<Class>) returns (out: Option<Class>)
      requires Good()
      modifies this
      ensures Wrote(old(words), old(position), [ClassWord(ClassPath(cls))]) || loading
      ensures !loading ==> out == cls && !error
      ensures loading ==> words == old(words) && position <= |words|
      ensures loading ==> var ws := old(Rest());
                          if ws == [] || !ws[0].ClassWord? then error
                          else !error && out == resolve(ws[0].path) && Rest() == ws[1..]
    {
      var path := SerializeWord(ClassWord(ClassPath(cls)));
      out := if loading then resolve(path.path) else cls;
    }

    /** Bytes: their number, then the bytes. */
    method SerializeBlob(blob: Blob) returns (out: Blob)
      requires Good()
      modifies this
      ensures Wrote(old(words), old(position), EncodeBlob(blob)) || loading
      ensures !loading ==> out == blob && !error
      ensures loading ==> words == old(words) && position <= |words|
      ensures loading ==> Outcome(DecodeBlob(old(Rest())), out, error, Rest())
    {
      var n := SerializeWord(CountWord(|blob|));
      out := blob;
      if !loading {
        assert (words + blob) == old(words) + EncodeBlob(blob);
        words := words + blob;
      } else if !error {
        if n.count <= |words| - position {
          assert words[position..position + n.count] == old(Rest())[1..1 + n.count];
          out := words[position..position + n.count];
          position := position + n.count;
        } else {
          error := true;
        }
      }
    }

    /** `n` names, one after the other. */
    method SerializeNames(n: nat, names: seq<Name>) returns (out: seq<Name>)
      requires Good() && (!loading ==> n == |names|)
      modifies this
      ensures Wrote(old(words), old(position), NameWords(names)) || loading
      ensures !loading ==> out == names && !error
      ensures loading ==> words == old(words) && position <= |words|
      ensures loading ==> Outcome(DecodeNames(n, old(Rest())), out, error, Rest())
      decreases n
    {
      out := [];
      if n == 0 {
        return;
      }
      ghost var before := words;
      var first := SerializeWord(NameWord(if loading then NAME_NONE else names[0]));
      if error {
        return;
      }
      var others := SerializeNames(n - 1, if loading then [] else names[1..]);
      out := [first.name] + others;
      assert !loading ==> words == before + ([NameWord(names[0])] + NameWords(names[1..]));
    }

    method SerializeTags(tags: seq<Name>) returns (out: seq<Name>)
      requires Good()
      modifies this
      ensures Wrote(old(words), old(position), EncodeTags(tags)) || loading
      ensures !loading ==> out == tags && !error
      ensures loading ==> words == old(words) && position <= |words|
      ensures loading ==> Outcome(DecodeTags(old(Rest())), out, error, Rest())
    {
      out := tags;
      ghost var before := words;
      var n := SerializeWord(CountWord(|tags|));
      if error {
        return;
      }
      out := SerializeNames(n.count, tags);
      assert !loading ==> words == before + ([CountWord(|tags|)] + NameWords(tags));
    }

    /** FObjectRecord::Serialize, after the name. */
    method SerializeContents(r: ObjectRecord) returns (out: ObjectRecord)
      requires Good()
      modifies this
      ensures Wrote(old(words), old(position), EncodeBlob(r.data) + EncodeTags(r.tags)) || loading
      ensures !loading ==> out == r && !error
      ensures loading ==> words == old(words) && position <= |words|
      ensures loading ==> Outcome(DecodeContents(r, old(Rest())), out, error, Rest())
    {
      out := r;
      ghost var before := words;
      var data := SerializeBlob(r.data);
      if error {
        return;
      }
      var tags := SerializeTags(r.tags);
      out := r.(data := data, tags := tags);
      assert !loading ==> words == before + (EncodeBlob(r.data) + EncodeTags(r.tags));
    }

    /** FObjectRecord::Serialize */
    method SerializeObject(r: ObjectRecord) returns (out: ObjectRecord)
      requires Good()
      modifies this
      ensures Wrote(old(words), old(position), EncodeObject(r)) || loading
      ensures !loading ==> out == r && !error
      ensures loading ==> words == old(words) && position <= |words|
      ensures loading ==> Outcome(DecodeObject(r, old(Rest()), resolve), out, error, Rest())
    {
      out := r;
      ghost var before := words;
      var name := SerializeWord(NameWord(r.name));
      if error {
        return;
      }
      out := out.(name := name.name);
      if name.name != NAME_NONE {
        var cls := SerializeClass(r.cls);
        if error {
          return;
        }
        out := out.(cls := cls);
      } else if loading {
        out := out.(cls := None);
      }
      if out.cls.Some? {
        out := SerializeContents(out);
      }
      assert !loading ==> words == before + EncodeObject(r);
    }

    /** FComponentRecord::Serialize */
    method SerializeComponent(r: ComponentRecord) returns (out: ComponentRecord)
      requires Good()
      modifies this
      ensures Wrote(old(words), old(position), EncodeComponent(r)) || loading
      ensures !loading ==> out == r && !error
      ensures loading ==> words == old(words) && position <= |words|
      ensures loading ==> Outcome(DecodeComponent(r, old(Rest()), resolve), out, error, Rest())
    {
      out := r;
      ghost var before := words;
      var base := SerializeObject(r.base);
      if error {
        return;
      }
      out := out.(base := base);
      if base.cls.Some? {
        var transform := SerializeWord(TransformWord(r.transform));
        out := out.(transform := transform.transform);
      }
      assert !loading ==> words == before + EncodeComponent(r);
    }

    /** Reads `n` component records, each over a default one. */
    method LoadComponents(n: nat) returns (out: seq<ComponentRecord>)
      requires Good() && loading
      modifies this
      ensures words == old(words) && position <= |words|
      ensures Outcome(DecodeComponentList(n, old(Rest()), resolve), out, error, Rest())
      decreases n
    {
      hide DecodeComponent;
      out := [];
      if n > 0 {
        var first := SerializeComponent(EMPTY_COMPONENT);
        if !error {
          var others := LoadComponents(n - 1);
          out := [first] + others;
        }
      }
    }

    /** Writes component records, one after the other. */
    method SaveComponents(rs: seq<ComponentRecord>)
      requires Good() && !loading
      modifies this
      ensures Wrote(old(words), old(position), ComponentWords(rs))
    {
      if rs == [] {
        return;
      }
      ghost var before := words;
      var _ := SerializeComponent(rs[0]);
      SaveComponents(rs[1..]);
      InTwoSteps(before, EncodeComponent(rs[0]), ComponentWords(rs[1..]));
    }

    method SerializeComponents(rs: seq<ComponentRecord>) returns (out: seq<ComponentRecord>)
      requires Good()
      modifies this
      ensures Wrote(old(words), old(position), EncodeComponents(rs)) || loading
      ensures !loading ==> out == rs && !error
      ensures loading ==> words == old(words) && position <= |words|
      ensures loading ==> Outcome(DecodeComponents(old(Rest()), resolve), out, error, Rest())
    {
      out := rs;
      ghost var before := words;
      var n := SerializeWord(CountWord(|rs|));
      if error {
        return;
      }
      if loading {
        out := LoadComponents(n.count);
      } else {
        SaveComponents(rs);
        InTwoSteps(before, [CountWord(|rs|)], ComponentWords(rs));
      }
    }

    /** One flag says whether the actor moves; only then its velocities follow. */
    method SerializeMotion(r: ActorRecord) returns (out: ActorRecord)
      requires Good()
      modifies this
      ensures Wrote(old(words), old(position), EncodeMotion(r)) || loading
      ensures !loading ==> out == r && !error
      ensures loading ==> words == old(words) && position <= |words|
      ensures loading ==> Outcome(DecodeMotion(r, old(Rest())), out, error, Rest())
    {
      out := r;
      ghost var before := words;
      var moving := SerializeWord(BoolWord(!loading && IsMoving(r)));
      if error || !moving.flag {
        return;
      }
      var linear := SerializeWord(VectorWord(r.linear));
      if error {
        return;
      }
      var angular := SerializeWord(VectorWord(r.angular));
      out := r.(linear := linear.vector, angular := angular.vector);
      assert !loading ==> words == before + [BoolWord(true), VectorWord(r.linear), VectorWord(r.angular)];
    }

    /** FActorRecord::Serialize, for a record with a class. */
    method SerializeActorRest(r: ActorRecord) returns (out: ActorRecord)
      requires Good()
      modifies this
      ensures Wrote(old(words), old(position), [BoolWord(r.hidden), BoolWord(r.procedural), TransformWord(r.transform)]
                                               + (EncodeMotion(r) + EncodeComponents(r.components))) || loading
      ensures !loading ==> out == r && !error
      ensures loading ==> words == old(words) && position <= |words|
      ensures loading ==> Outcome(DecodeActorRest(r, old(Rest()), resolve), out, error, Rest())
    {
      hide EncodeMotion, EncodeComponents, DecodeMotion, DecodeComponents, IsMoving;
      out := r;
      ghost var before := words;
      var hidden := SerializeWord(BoolWord(r.hidden));
      if error {
        return;
      }
      var procedural := SerializeWord(BoolWord(r.procedural));
      if error {
        return;
      }
      var transform := SerializeWord(TransformWord(r.transform));
      if error {
        return;
      }
      ghost var flags := [BoolWord(r.hidden), BoolWord(r.procedural), TransformWord(r.transform)];
      assert !loading ==> words == before + flags;
      assert loading ==> Rest() == old(Rest())[3..];
      out := SerializeMotion(out.(hidden := hidden.flag, procedural := procedural.flag,
                                  transform := transform.transform));
      if error {
        return;
      }
      var components := SerializeComponents(r.components);
      out := out.(components := components);
      assert !loading ==> words == before + (flags + (EncodeMotion(r) + EncodeComponents(r.components)));
    }

    /** FActorRecord::Serialize */
    method SerializeActor(r: ActorRecord) returns (out: ActorRecord)
      requires Good()
      modifies this
      ensures Wrote(old(words), old(position), EncodeActor(r)) || loading
      ensures !loading ==> out == r && !error
      ensures loading ==> words == old(words) && position <= |words|
      ensures loading ==> Outcome(DecodeActor(r, old(Rest()), resolve), out, error, Rest())
    {
      out := r;
      ghost var before := words;
      var base := SerializeObject(r.base);
      if error {
        return;
      }
      out := out.(base := base);
      if base.cls.None? {
        assert !loading ==> EncodeActor(r) == EncodeObject(r.base);
        return;
      }
      out := SerializeActorRest(out);
      assert !loading ==> words == before + EncodeActor(r);
    }

    /** Reads `n` actor records, each over a default one. */
    method LoadActors(n: nat) returns (out: seq<ActorRecord>)
      requires Good() && loading
      modifies this
      ensures words == old(words) && position <= |words|
      ensures Outcome(DecodeActorList(n, old(Rest()), resolve), out, error, Rest())
      decreases n
    {
      hide DecodeActor;
      out := [];
      if n > 0 {
        var first := SerializeActor(EMPTY_ACTOR);
        if !error {
          var others := LoadActors(n - 1);
          out := [first] + others;
        }
      }
    }

    /** Writes actor records, one after the other. */
    method SaveActors(rs: seq<ActorRecord>)
      requires Good() && !loading
      modifies this
      ensures Wrote(old(words), old(position), ActorWords(rs))
    {
      if rs == [] {
        return;
      }
      ghost var before := words;
      var _ := SerializeActor(rs[0]);
      SaveActors(rs[1..]);
      InTwoSteps(before, EncodeActor(rs[0]), ActorWords(rs[1..]));
    }

    method SerializeActors(rs: seq<ActorRecord>) returns (out: seq<ActorRecord>)
      requires Good()
      modifies this
      ensures Wrote(old(words), old(position), EncodeActors(rs)) || loading
      ensures !loading ==> out == rs && !error
      ensures loading ==> words == old(words) && position <= |words|
      ensures loading ==> Outcome(DecodeActors(old(Rest()), resolve), out, error, Rest())
    {
      out := rs;
      ghost var before := words;
      var n := SerializeWord(CountWord(|rs|));
      if error {
        return;
      }
      if loading {
        out := LoadActors(n.count);
      } else {
        SaveActors(rs);
        InTwoSteps(before, [CountWord(|rs|)], ActorWords(rs));
      }
    }

    method SerializeLevelActors(r: LevelRecord) returns (out: LevelRecord)
      requires Good()
      modifies this
      ensures Wrote(old(words), old(position), EncodeActor(r.levelScript) + EncodeActors(r.actors)) || loading
      ensures !loading ==> out == r && !error
      ensures loading ==> words == old(words) && position <= |words|
      ensures loading ==> Outcome(DecodeLevelActors(r, old(Rest()), resolve), out, error, Rest())
    {
      out := r;
      ghost var before := words;
      var script := SerializeActor(r.levelScript);
      if error {
        return;
      }
      var actors := SerializeActors(r.actors);
      out := r.(levelScript := script, actors := actors);
      assert !loading ==> words == before + (EncodeActor(r.levelScript) + EncodeActors(r.actors));
    }

    /** FLevelRecord::Serialize */
    method SerializeLevel(r: LevelRecord) returns (out: LevelRecord)
      requires Good()
      modifies this
      ensures Wrote(old(words), old(position), EncodeLevel(r)) || loading
      ensures !loading ==> out == r && !error
      ensures loading ==> words == old(words) && position <= |words|
      ensures loading ==> Outcome(DecodeLevel(r, old(Rest()), resolve), out, error, Rest())
    {
      hide EncodeActor, EncodeActors, DecodeLevelActors;
      out := r;
      ghost var before := words;
      var name := SerializeWord(NameWord(r.name));
      if error {
        return;
      }
      var overridesFilter := SerializeWord(BoolWord(r.overridesFilter));
      if error {
        return;
      }
      assert loading ==> Rest() == old(Rest())[2..];
      out := out.(name := name.name, overridesFilter := overridesFilter.flag);
      if overridesFilter.flag {
        var filter := SerializeWord(FilterWord(r.filter));
        if error {
          return;
        }
        assert loading ==> Rest() == old(Rest())[3..];
        out := out.(filter := filter.filter);
      }
      out := SerializeLevelActors(out);
      assert !loading ==> words == before + EncodeLevel(r);
    }

    /** Reads `n` level records, each over a default one. */
    method LoadLevels(n: nat) returns (out: seq<LevelRecord>)
      requires Good() && loading
      modifies this
      ensures words == old(words) && position <= |words|
      ensures Outcome(DecodeLevelList(n, old(Rest()), resolve), out, error, Rest())
      decreases n
    {
      hide DecodeLevel;
      out := [];
      if n > 0 {
        var first := SerializeLevel(EMPTY_LEVEL);
        if !error {
          var others := LoadLevels(n - 1);
          out := [first] + others;
        }
      }
    }

    /** Writes level records, one after the other. */
    method SaveLevels(rs: seq<LevelRecord>)
      requires Good() && !loading
      modifies this
      ensures Wrote(old(words), old(position), LevelWords(rs))
    {
      if rs == [] {
        return;
      }
      ghost var before := words;
      var _ := SerializeLevel(rs[0]);
      SaveLevels(rs[1..]);
      InTwoSteps(before, EncodeLevel(rs[0]), LevelWords(rs[1..]));
    }

    method SerializeLevels(rs: seq<LevelRecord>) returns (out: seq<LevelRecord>)
      requires Good()
      modifies this
      ensures Wrote(old(words), old(position), EncodeLevels(rs)) || loading
      ensures !loading ==> out == rs && !error
      ensures loading ==> words == old(words) && position <= |words|
      ensures loading ==> Outcome(DecodeLevels(old(Rest()), resolve), out, error, Rest())
    {
      out := rs;
      ghost var before := words;
      var n := SerializeWord(CountWord(|rs|));
      if error {
        return;
      }
      if loading {
        out := LoadLevels(n.count);
      } else {
        SaveLevels(rs);
        InTwoSteps(before, [CountWord(|rs|)], LevelWords(rs));
      }
    }

    /** The levels of a slot. */
    method SerializeSlotLevels(d: Slot) returns (out: Slot)
      requires Good()
      modifies this
      ensures Wrote(old(words), old(position), EncodeLevel(d.mainLevel) + EncodeLevels(d.subLevels)) || loading
      ensures !loading ==> out == d && !error
      ensures loading ==> words == old(words) && position <= |words|
      ensures loading ==> Outcome(DecodeSlotLevels(d, old(Rest()), resolve), out, error, Rest())
    {
      out := d;
      ghost var before := words;
      var mainLevel := SerializeLevel(d.mainLevel);
      if !error {
        var subLevels := SerializeLevels(d.subLevels);
        out := out.(mainLevel := mainLevel, subLevels := subLevels);
        InTwoSteps(before, EncodeLevel(d.mainLevel), EncodeLevels(d.subLevels));
      }
    }

    /** What a slot stores by hand, after the flag for the game instance. */
    method SerializeSlotRest(d: Slot) returns (out: Slot)
      requires Good()
      modifies this
      ensures Wrote(old(words), old(position),
                    EncodeObject(d.gameInstance)
                    + ([FilterWord(d.generalFilter)] + (EncodeLevel(d.mainLevel) + EncodeLevels(d.subLevels))))
                      || loading
      ensures !loading ==> out == d && !error
      ensures loading ==> words == old(words) && position <= |words|
      ensures loading ==> Outcome(DecodeSlotRest(d, old(Rest()), resolve), out, error, Rest())
    {
      out := d;
      ghost var before := words;
      var gameInstance := SerializeObject(d.gameInstance);
      if !error {
        var filter := SerializeWord(FilterWord(d.generalFilter));
        if !error {
          out := SerializeSlotLevels(out.(gameInstance := gameInstance, generalFilter := filter.filter));
          ghost var levels := EncodeLevel(d.mainLevel) + EncodeLevels(d.subLevels);
          InTwoSteps(before + EncodeObject(d.gameInstance), [FilterWord(d.generalFilter)], levels);
          InTwoSteps(before, EncodeObject(d.gameInstance), [FilterWord(d.generalFilter)] + levels);
        }
      }
    }

    /** USlotData::Serialize, the inherited properties first. */
    method SerializeSlot(d: Slot) returns (out: Slot)
      requires Good()
      modifies this
      ensures Wrote(old(words), old(position), EncodeSlot(d)) || loading
      ensures !loading ==> out == d && !error
      ensures loading ==> words == old(words) && position <= |words|
      ensures loading ==> Outcome(DecodeSlot(d, old(Rest()), resolve), out, error, Rest())
    {
      hide EncodeObject, EncodeLevel, EncodeLevels, DecodeSlotLevels, DecodeObject;
      out := d;
      ghost var before := words;
      var mapName := SerializeWord(NameWord(d.mapName));
      if error {
        return;
      }
      var timeSeconds := SerializeWord(RealWord(d.timeSeconds));
      if error {
        return;
      }
      var storeGameInstance := SerializeWord(BoolWord(d.storeGameInstance));
      if error {
        return;
      }
      assert loading ==> Rest() == old(Rest())[3..];
      ghost var head := [NameWord(d.mapName), RealWord(d.timeSeconds), BoolWord(d.storeGameInstance)];
      assert !loading ==> words == before + head;
      out := SerializeSlotRest(out.(mapName := mapName.name, timeSeconds := timeSeconds.amount,
                                    storeGameInstance := storeGameInstance.flag));
      InTwoSteps(before, head, EncodeObject(d.gameInstance)
                              + ([FilterWord(d.generalFilter)]
                                 + (EncodeLevel(d.mainLevel) + EncodeLevels(d.subLevels))));
    }
  }

  /** Writing a slot and reading the words into a new one gives the slot back, and leaves what follows. */
  method WriteAndRead(d: Slot, suffix: seq<Word>, resolve: Resolver) returns (back: Slot)
    requires GoodSlot(d, resolve)
    ensures back == KeptSlot(d)
  {
    var writer := new Archive(false, [], resolve);
    var _ := writer.SerializeSlot(d);
    var reader := new Archive(true, writer.words + suffix, resolve);
    assert writer.words == EncodeSlot(d);
    assert reader.Rest() == EncodeSlot(d) + suffix;
    SlotRoundTrip(d, suffix, resolve);
    back := reader.SerializeSlot(EMPTY_SLOT);
  }
}
